/** Rewriting the file references of a profile after files have moved
    (src/DataLayoutMigration.cpp).  Some keys hold one path, others a list separated by '|'. */
module ProfilePaths {
  import opened Common
  import opened LocalPath

  type Profile = map<string, string>

  /** A file moves within the data directory; both paths are relative to it. */
  datatype Move = Move(from: string, to: string) {
    function Source(root: string): string {
      Build(root, from)
    }

    function Destination(root: string): string {
      Build(root, to)
    }

    /** What a profile's reference to the new place denotes: another place, if the file name
        contains a backslash. */
    function Arrival(root: string): string {
      Build(root, Slashes(to))
    }

    /** What the plans of the migration satisfy. */
    predicate Proper() {
      && from != "" && to != "" && !IsSlash(to[0])
      && ('|' in to ==> '|' in from) && ('\\' in to <==> '\\' in from)
    }
  }

  const KEYS: seq<string> :=
    ["MapFile", "WPFileList", "WatchedWPFileList", "AirfieldFileList", "AirspaceFileList",
     "FlarmFile", "RaspFile", "ChecklistFile", "InputFile", "PlanePath"]
  const LIST_KEYS: set<string> := {"WPFileList", "WatchedWPFileList", "AirfieldFileList", "AirspaceFileList"}

  // References

  /** TIterableSplitString(value, '|') */
  function Split(s: string): (p: seq<string>)
    ensures p != [] && forall i :: 0 <= i < |p| ==> '|' !in p[i]
  {
    if s == "" then [""]
    else
      var p := Split(s[1..]);
      if s[0] == '|' then [""] + p else [[s[0]] + p[0]] + p[1..]
  }

  /** All parts with a separator between them. */
  function Bars(parts: seq<string>): string {
    if parts == [] then "" else if |parts| == 1 then parts[0] else parts[0] + "|" + Bars(parts[1..])
  }

  /** The parts are the text between the separators. */
  lemma {:induction false} SplitMeaning(s: string)
    ensures Bars(Split(s)) == s
  {
    if s != "" {
      SplitMeaning(s[1..]);
      var p := Split(s[1..]);
      if s[0] == '|' {
        assert ([""] + p)[1..] == p;
        assert s == "" + "|" + s[1..];
      } else {
        var q := [[s[0]] + p[0]] + p[1..];
        assert q[1..] == p[1..];
        assert Bars(q) == [s[0]] + Bars(p);
      }
    }
  }

  /** The keys that hold references, and those of them that hold lists. */
  lemma KeysByName(key: string)
    ensures key in KEYS <==>
              || key == "MapFile" || key == "WPFileList" || key == "WatchedWPFileList"
              || key == "AirfieldFileList" || key == "AirspaceFileList" || key == "FlarmFile"
              || key == "RaspFile" || key == "ChecklistFile" || key == "InputFile" || key == "PlanePath"
    ensures key in LIST_KEYS <==>
              || key == "WPFileList" || key == "WatchedWPFileList"
              || key == "AirfieldFileList" || key == "AirspaceFileList"
    ensures |KEYS| == 10
  {
    assert KEYS[0] == "MapFile" && KEYS[1] == "WPFileList" && KEYS[2] == "WatchedWPFileList";
    assert KEYS[3] == "AirfieldFileList" && KEYS[4] == "AirspaceFileList" && KEYS[5] == "FlarmFile";
    assert KEYS[6] == "RaspFile" && KEYS[7] == "ChecklistFile" && KEYS[8] == "InputFile" && KEYS[9] == "PlanePath";
  }

  /** Empty parts name no file. */
  function NonEmpty(p: seq<string>): (q: seq<string>)
    ensures forall i :: 0 <= i < |q| ==> q[i] != "" && q[i] in p
  {
    if p == [] then []
    else NonEmpty(p[..|p| - 1]) + (if p[|p| - 1] == "" then [] else [p[|p| - 1]])
  }

  /** The file references in the value of a key. */
  function Refs(key: string, value: string): seq<string> {
    if key in LIST_KEYS then NonEmpty(Split(value)) else if value == "" then [] else [value]
  }

  function ProfileRefs(p: Profile, key: string): seq<string> {
    if key in p then Refs(key, p[key]) else []
  }

  // One move

  function Rewrite(root: string, m: Move, ref: string): string {
    if Expand(root, ref) == m.Source(root) then Stored(root, m.Destination(root)) else ref
  }

  function Replace(root: string, m: Move, parts: seq<string>): (r: seq<string>)
    ensures |r| == |parts| && forall i :: 0 <= i < |parts| ==> r[i] == Rewrite(root, m, parts[i])
  {
    seq(|parts|, i requires 0 <= i < |parts| => Rewrite(root, m, parts[i]))
  }

  /** The parts separated by '|', as the source joins them: no separator before the first
      non-empty part. */
  function Join(parts: seq<string>): string {
    if parts == [] then ""
    else
      var s := Join(parts[..|parts| - 1]);
      (if s == "" then "" else s + "|") + parts[|parts| - 1]
  }

  predicate Matches(root: string, m: Move, parts: seq<string>) {
    exists i :: 0 <= i < |parts| && Expand(root, parts[i]) == m.Source(root)
  }

  function UpdateSingle(root: string, m: Move, p: Profile, key: string): Profile {
    if key in p && p[key] != "" && Expand(root, p[key]) == m.Source(root)
    then p[key := Stored(root, m.Destination(root))] else p
  }

  function UpdateMultiple(root: string, m: Move, p: Profile, key: string): Profile {
    if key in p && p[key] != "" && Matches(root, m, Split(p[key]))
    then p[key := Join(Replace(root, m, Split(p[key])))] else p
  }

  lemma JoinOneMore(parts: seq<string>, i: nat)
    requires i < |parts|
    ensures Join(parts[..i + 1]) == (if Join(parts[..i]) == "" then "" else Join(parts[..i]) + "|") + parts[i]
  {
    assert parts[..i + 1][..i] == parts[..i];
  }

  lemma RewriteIs(root: string, m: Move, ref: string)
    ensures Rewrite(root, m, ref)
            == if Expand(root, ref) == m.Source(root) then Stored(root, m.Destination(root)) else ref
  {
  }

  /** UpdateMultipleProfilePaths */
  method UpdateMultiplePaths(root: string, m: Move, p: Profile, key: string) returns (q: Profile, changed: bool)
    ensures q == UpdateMultiple(root, m, p, key)
    ensures changed <==> key in p && p[key] != "" && Matches(root, m, Split(p[key]))
    ensures !changed ==> q == p
  {
    hide Expand, Stored, Split;
    q, changed := p, false;
    if key !in p || p[key] == "" {
      return;
    }
    var parts, updated := Split(p[key]), "";
    ghost var all := Replace(root, m, parts);
    assert Join(all[..0]) == "";
    hide Join, Replace, Rewrite;
    forall i | 0 <= i < |parts|
      ensures all[i] == if Expand(root, parts[i]) == m.Source(root) then Stored(root, m.Destination(root)) else parts[i]
    {
      RewriteIs(root, m, parts[i]);
    }
    for i := 0 to |parts|
      invariant updated == Join(all[..i])
      invariant changed <==> exists k :: 0 <= k < i && Expand(root, parts[k]) == m.Source(root)
    {
      JoinOneMore(all, i);
      if updated != "" {
        updated := updated + "|";
      }
      if Expand(root, parts[i]) == m.Source(root) {
        updated := updated + Stored(root, m.Destination(root));
        changed := true;
      } else {
        updated := updated + parts[i];
      }
    }
    assert all[..|parts|] == all;
    if changed {
      q := q[key := updated];
    }
  }

  /** UpdateProfileReferences: every key is updated. */
  function UpdateKeys(root: string, m: Move, p: Profile, keys: seq<string>): Profile {
    if keys == [] then p
    else
      var key, q := keys[|keys| - 1], UpdateKeys(root, m, p, keys[..|keys| - 1]);
      if key in LIST_KEYS then UpdateMultiple(root, m, q, key) else UpdateSingle(root, m, q, key)
  }

  function UpdateReferences(root: string, m: Move, p: Profile): Profile {
    UpdateKeys(root, m, p, KEYS)
  }

  /** UpdateSingleProfilePath */
  method UpdateSinglePath(root: string, m: Move, p: Profile, key: string) returns (q: Profile, changed: bool)
    ensures q == UpdateSingle(root, m, p, key)
    ensures changed <==> key in p && p[key] != "" && Expand(root, p[key]) == m.Source(root)
    ensures !changed ==> q == p
  {
    if key !in p || p[key] == "" || Expand(root, p[key]) != m.Source(root) {
      return p, false;
    }
    return p[key := Stored(root, m.Destination(root))], true;
  }

  method UpdateProfileReferences(root: string, m: Move, p: Profile) returns (q: Profile, changed: bool)
    ensures q == UpdateReferences(root, m, p)
    ensures !changed ==> q == p
  {
    hide KEYS, LIST_KEYS, UpdateSingle, UpdateMultiple;
    q, changed := p, false;
    for i := 0 to |KEYS|
      invariant q == UpdateKeys(root, m, p, KEYS[..i])
      invariant !changed ==> q == p
    {
      assert KEYS[..i + 1][..i] == KEYS[..i];
      var keyChanged;
      if KEYS[i] in LIST_KEYS {
        q, keyChanged := UpdateMultiplePaths(root, m, q, KEYS[i]);
      } else {
        q, keyChanged := UpdateSinglePath(root, m, q, KEYS[i]);
      }
      changed := changed || keyChanged;
    }
    assert KEYS[..|KEYS|] == KEYS;
  }

  /** UpdateProfileFromMoves */
  function UpdateFromMoves(root: string, moves: seq<Move>, p: Profile): Profile {
    if moves == [] then p
    else UpdateReferences(root, moves[|moves| - 1], UpdateFromMoves(root, moves[..|moves| - 1], p))
  }

  method UpdateProfileFromMoves(root: string, moves: seq<Move>, p: Profile) returns (q: Profile, changed: bool)
    ensures q == UpdateFromMoves(root, moves, p)
    ensures !changed ==> q == p
  {
    hide UpdateReferences;
    q, changed := p, false;
    for i := 0 to |moves|
      invariant q == UpdateFromMoves(root, moves[..i], p)
      invariant !changed ==> q == p
    {
      assert moves[..i + 1][..i] == moves[..i];
      var keyChanged;
      q, keyChanged := UpdateProfileReferences(root, moves[i], q);
      changed := changed || keyChanged;
    }
    assert moves[..|moves|] == moves;
  }

  function RewriteAll(root: string, moves: seq<Move>, ref: string): string {
    if moves == [] then ref
    else Rewrite(root, moves[|moves| - 1], RewriteAll(root, moves[..|moves| - 1], ref))
  }

  // Lists survive splitting and joining

  lemma {:induction false} SplitAtBar(a: string, b: string)
    requires '|' !in a
    ensures Split(a + "|" + b) == [a] + Split(b)
    ensures Split(a) == [a]
  {
    var s := a + "|" + b;
    if a == "" {
      assert s[1..] == b;
    } else {
      SplitAtBar(a[1..], b);
      assert s[1..] == a[1..] + "|" + b && s[0] == a[0];
      var p := [a[1..]] + Split(b);
      assert p[1..] == Split(b) && [a[0]] + p[0] == a;
      assert [a[0]] + a[1..] == a && [a[1..]][1..] == [];
    }
  }

  lemma SplitFirst(s: string, rest: seq<string>)
    requires s != "" && rest == Split(s[1..])
    ensures Split(s) == if s[0] == '|' then [""] + rest else [[s[0]] + rest[0]] + rest[1..]
  {
  }

  lemma {:induction false} SplitConcat(a: string, b: string)
    ensures Split(a + "|" + b) == Split(a) + Split(b)
    decreases |a|
  {
    var s := a + "|" + b;
    if a == "" {
      assert s[1..] == b;
    } else {
      assert s[0] == a[0];
      SplitConcat(a[1..], b);
      assert s[1..] == a[1..] + "|" + b;
      var x, y := Split(a[1..]), Split(b);
      SplitFirst(a, x);
      SplitFirst(s, x + y);
      hide Split;
      HeadAndTail(x, y);
      if a[0] == '|' {
        ConsConcat("", x, y);
      } else {
        ConsConcat([a[0]] + x[0], x[1..], y);
      }
    }
  }

  lemma ConsConcat<T>(h: T, x: seq<T>, y: seq<T>)
    ensures [h] + (x + y) == ([h] + x) + y
  {
  }

  lemma HeadAndTail<T>(x: seq<T>, y: seq<T>)
    requires x != []
    ensures (x + y)[0] == x[0] && (x + y)[1..] == x[1..] + y
  {
  }

  lemma {:induction false} NonEmptyConcat(p: seq<string>, q: seq<string>)
    ensures NonEmpty(p + q) == NonEmpty(p) + NonEmpty(q)
    decreases |q|
  {
    if q == [] {
      assert p + q == p;
    } else {
      NonEmptyConcat(p, q[..|q| - 1]);
      assert (p + q)[..|p + q| - 1] == p + q[..|q| - 1];
    }
  }

  lemma NonEmptyOne(s: string)
    ensures NonEmpty([s]) == if s == "" then [] else [s]
  {
    assert [s][..0] == [];
  }

  /** Joining loses at most empty parts. */
  lemma {:induction false} JoinKeepsRefs(parts: seq<string>)
    requires forall i :: 0 <= i < |parts| ==> '|' !in parts[i]
    ensures NonEmpty(Split(Join(parts))) == NonEmpty(parts)
  {
    if parts == [] {
      NonEmptyOne("");
    } else {
      var k := |parts| - 1;
      var s, t := Join(parts[..k]), parts[k];
      JoinKeepsRefs(parts[..k]);
      SplitAtBar(t, "");
      NonEmptyOne(t);
      if s == "" {
        NonEmptyOne("");
        assert Join(parts) == t;
      } else {
        SplitConcat(s, t);
        NonEmptyConcat(Split(s), [t]);
      }
    }
  }

  lemma {:induction false} NonEmptyOfReplace(root: string, m: Move, parts: seq<string>)
    requires Stored(root, m.Destination(root)) != "" && Expand(root, "") != m.Source(root)
    ensures NonEmpty(Replace(root, m, parts)) == Replace(root, m, NonEmpty(parts))
  {
    if parts != [] {
      var k := |parts| - 1;
      NonEmptyOfReplace(root, m, parts[..k]);
      assert Replace(root, m, parts)[..k] == Replace(root, m, parts[..k]);
    }
  }

  // Every reference of a profile is rewritten, and nothing else

  lemma MatchHasNoBar(root: string, from: string, ref: string)
    requires '|' !in ref && Expand(root, ref) == Build(root, from)
    ensures '|' !in from
  {
    var rest := AfterCode(ref);
    var e := Expand(root, ref);
    assert e[|root| + 1..] == from;
    if rest.Some? {
      SkippedIsSuffix(ref[|CODE|..]);
      assert from == Slashes(rest.value);
      forall i | 0 <= i < |rest.value|
        ensures rest.value[i] != '|'
      {
        assert rest.value[i] in ref[|CODE|..];
      }
    } else {
      assert forall i :: 0 <= i < |from| ==> from[i] == ref[|root| + 1 + i];
    }
  }

  lemma {:induction false} SkippedIsSuffix(s: string)
    ensures forall c :: c in SkipSlashes(s) ==> c in s
  {
    if s != "" && IsSlash(s[0]) {
      SkippedIsSuffix(s[1..]);
    }
  }

  lemma StoredMove(root: string, m: Move)
    requires m.Proper()
    ensures Stored(root, m.Destination(root)) == CODE + m.to
    ensures Expand(root, Stored(root, m.Destination(root))) == m.Arrival(root)
    ensures Expand(root, "") == "" != m.Source(root)
  {
    RelativeToBuild(root, m.to);
    ExpandStored(root, m.to);
  }

  /** A reference to a moved file names the new place afterwards exactly if that place can be
      written in contracted form; a backslash in the file name, which POSIX allows, prevents it. */
  lemma RewrittenRefArrivesIff(root: string, m: Move, ref: string)
    requires Expand(root, ref) == m.Source(root)
    ensures Expand(root, Rewrite(root, m, ref)) == m.Destination(root)
            <==> m.to != "" && m.to[0] != '/' && '\\' !in m.to
  {
    hide Expand, Stored;
    ExpandInvertsContract(root, m.to);
  }

  /** One such file: the rewritten reference leads into a directory instead. */
  lemma BackslashBreaksReference(root: string)
    ensures var m := Move("a\\b.xcm", "maps/a\\b.xcm");
            Expand(root, Stored(root, m.Destination(root))) == root + "/" + "maps/a/b.xcm" != m.Destination(root)
  {
    var m := Move("a\\b.xcm", "maps/a\\b.xcm");
    RelativeToBuild(root, m.to);
    assert (CODE + m.to)[|CODE|..] == m.to && SkipSlashes(m.to) == m.to;
    assert Slashes(m.to) == "maps/a/b.xcm";
  }

  lemma UpdateSingleRefs(root: string, m: Move, p: Profile, key: string)
    requires m.Proper() && key !in LIST_KEYS
    ensures ProfileRefs(UpdateSingle(root, m, p, key), key) == Replace(root, m, ProfileRefs(p, key))
  {
    StoredMove(root, m);
  }

  lemma UpdateMultipleRefs(root: string, m: Move, p: Profile, key: string)
    requires m.Proper() && key in LIST_KEYS
    ensures ProfileRefs(UpdateMultiple(root, m, p, key), key) == Replace(root, m, ProfileRefs(p, key))
  {
    hide Expand;
    StoredMove(root, m);
    if key in p {
      var parts := Split(p[key]);
      NonEmptyOfReplace(root, m, parts);
      if p[key] == "" {
        NonEmptyOne("");
      } else if Matches(root, m, parts) {
        var r := Replace(root, m, parts);
        forall i | 0 <= i < |r|
          ensures '|' !in r[i]
        {
          if Expand(root, parts[i]) == m.Source(root) {
            MatchHasNoBar(root, m.from, parts[i]);
          }
        }
        JoinKeepsRefs(r);
      } else {
        forall i | 0 <= i < |parts|
          ensures Rewrite(root, m, parts[i]) == parts[i]
        {
        }
        assert Replace(root, m, parts) == parts;
      }
    }
  }

  lemma ReplaceTwice(root: string, m: Move, parts: seq<string>)
    requires m.Proper() && m.Source(root) != m.Arrival(root)
    ensures Replace(root, m, Replace(root, m, parts)) == Replace(root, m, parts)
  {
    StoredMove(root, m);
  }

  lemma {:induction false} UpdateKeysRefs(root: string, m: Move, p: Profile, keys: seq<string>, key: string)
    requires m.Proper() && m.Source(root) != m.Arrival(root)
    ensures ProfileRefs(UpdateKeys(root, m, p, keys), key)
            == if key in keys then Replace(root, m, ProfileRefs(p, key)) else ProfileRefs(p, key)
  {
    if keys != [] {
      hide LIST_KEYS, UpdateMultiple, UpdateSingle, Refs;
      var k, last := |keys| - 1, keys[|keys| - 1];
      UpdateKeysRefs(root, m, p, keys[..k], key);
      var q := UpdateKeys(root, m, p, keys[..k]);
      UpdateOneKey(root, m, q, last, key);
      ReplaceTwice(root, m, ProfileRefs(p, key));
      assert key in keys <==> key in keys[..k] || key == last;
    }
  }

  lemma UpdateOneKey(root: string, m: Move, q: Profile, last: string, key: string)
    requires m.Proper()
    ensures var r := if last in LIST_KEYS then UpdateMultiple(root, m, q, last) else UpdateSingle(root, m, q, last);
            ProfileRefs(r, key) == if key == last then Replace(root, m, ProfileRefs(q, key)) else ProfileRefs(q, key)
  {
    if last in LIST_KEYS {
      UpdateMultipleRefs(root, m, q, last);
    } else {
      UpdateSingleRefs(root, m, q, last);
    }
    hide Refs;
  }

  // Any number of moves

  /** Where the file at `path` is after the moves. */
  function Dest(root: string, moves: seq<Move>, path: string): string {
    if moves == [] then path
    else
      var m := moves[|moves| - 1];
      if path == m.Source(root) then m.Destination(root) else Dest(root, moves[..|moves| - 1], path)
  }

  predicate DistinctSources(moves: seq<Move>) {
    forall i, j :: 0 <= i < j < |moves| ==> moves[i].from != moves[j].from
  }

  /** No destination is a source. */
  predicate Apart(moves: seq<Move>) {
    forall i, j :: 0 <= i < |moves| && 0 <= j < |moves| ==> moves[i].to != moves[j].from
  }

  /** The moves as references see them. */
  function Arrived(moves: seq<Move>): (r: seq<Move>)
    ensures |r| == |moves|
    ensures forall i :: 0 <= i < |r| ==> r[i] == Move(moves[i].from, Slashes(moves[i].to))
  {
    seq(|moves|, i requires 0 <= i < |moves| => Move(moves[i].from, Slashes(moves[i].to)))
  }

  /** Where a rewritten reference leads that named `path` before. */
  function RefDest(root: string, moves: seq<Move>, path: string): string {
    Dest(root, Arrived(moves), path)
  }

  predicate GoodMoves(moves: seq<Move>) {
    && (forall i :: 0 <= i < |moves| ==> moves[i].Proper())
    && Apart(moves) && Apart(Arrived(moves)) && DistinctSources(moves)
  }

  lemma BuildIsInjective(root: string, a: string, b: string)
    ensures Build(root, a) == Build(root, b) <==> a == b
  {
    assert Build(root, a)[|root| + 1..] == a && Build(root, b)[|root| + 1..] == b;
  }

  lemma {:induction false} DestCases(root: string, moves: seq<Move>, path: string)
    ensures || (Dest(root, moves, path) == path && forall i :: 0 <= i < |moves| ==> path != moves[i].Source(root))
            || (exists i :: 0 <= i < |moves| && path == moves[i].Source(root)
                            && Dest(root, moves, path) == moves[i].Destination(root))
  {
    if moves != [] {
      var k := |moves| - 1;
      DestCases(root, moves[..k], path);
      if path != moves[k].Source(root) {
        var init := moves[..k];
        if i :| 0 <= i < |init| && path == init[i].Source(root) && Dest(root, init, path) == init[i].Destination(root) {
          assert moves[i] == init[i];
        } else {
          forall i | 0 <= i < |moves|
            ensures path != moves[i].Source(root)
          {
            if i < k {
              assert moves[i] == init[i];
            }
          }
        }
      }
    }
  }

  lemma ArrivedPrefix(moves: seq<Move>)
    requires moves != []
    ensures var k := |moves| - 1;
            && Arrived(moves)[..k] == Arrived(moves[..k])
            && Arrived(moves)[k] == Move(moves[k].from, Slashes(moves[k].to))
  {
  }

  lemma GoodPrefix(moves: seq<Move>)
    requires GoodMoves(moves) && moves != []
    ensures GoodMoves(moves[..|moves| - 1]) && moves[|moves| - 1].Proper()
  {
    ArrivedPrefix(moves);
  }

  /** Applying the moves one after the other rewrites a reference as if all were applied at once. */
  lemma {:induction false} RewrittenRefIsMoved(root: string, moves: seq<Move>, ref: string)
    requires GoodMoves(moves)
    ensures Expand(root, RewriteAll(root, moves, ref)) == RefDest(root, moves, Expand(root, ref))
  {
    if moves != [] {
      var k := |moves| - 1;
      var path := Expand(root, ref);
      GoodPrefix(moves);
      StoredMove(root, moves[k]);
      RefDestLast(root, moves, path);
      RefDestMeetsLast(root, moves, path);
      hide Expand, Stored, RefDest, GoodMoves, Move.Arrival, Move.Source;
      RewrittenRefIsMoved(root, moves[..k], ref);
    }
  }

  lemma RefDestLast(root: string, moves: seq<Move>, path: string)
    requires moves != []
    ensures var k := |moves| - 1;
            RefDest(root, moves, path)
            == if path == moves[k].Source(root) then moves[k].Arrival(root) else RefDest(root, moves[..k], path)
  {
    ArrivedPrefix(moves);
    hide Slashes;
  }

  lemma RefDestCases(root: string, moves: seq<Move>, path: string)
    ensures || (RefDest(root, moves, path) == path && forall i :: 0 <= i < |moves| ==> path != moves[i].Source(root))
            || (exists i :: 0 <= i < |moves| && path == moves[i].Source(root)
                            && RefDest(root, moves, path) == moves[i].Arrival(root))
  {
    hide Slashes, Build;
    var arrived := Arrived(moves);
    DestCases(root, arrived, path);
    if i :| 0 <= i < |arrived| && path == arrived[i].Source(root)
            && Dest(root, arrived, path) == arrived[i].Destination(root) {
      assert path == moves[i].Source(root) && RefDest(root, moves, path) == moves[i].Arrival(root);
    } else {
      assert forall i :: 0 <= i < |moves| ==> arrived[i].Source(root) == moves[i].Source(root);
    }
  }

  /** What the earlier moves make of a path is a source of the last move only if the path is. */
  lemma RefDestMeetsLast(root: string, moves: seq<Move>, path: string)
    requires GoodMoves(moves) && moves != []
    ensures var k := |moves| - 1;
            RefDest(root, moves[..k], path) == moves[k].Source(root) <==> path == moves[k].Source(root)
  {
    hide Slashes, Move.Proper, Build;
    var k := |moves| - 1;
    var arrived, m := Arrived(moves[..k]), moves[k];
    ArrivedPrefix(moves);
    DestCases(root, arrived, path);
    if i :| 0 <= i < k && path == arrived[i].Source(root) && Dest(root, arrived, path) == arrived[i].Destination(root) {
      assert arrived[i] == Arrived(moves)[i] && m.from == Arrived(moves)[k].from;
      BuildIsInjective(root, arrived[i].to, m.from);
      BuildIsInjective(root, moves[i].from, m.from);
    }
  }

  lemma {:induction false} DestOfSource(root: string, moves: seq<Move>, i: nat)
    requires DistinctSources(moves) && i < |moves|
    ensures Dest(root, moves, moves[i].Source(root)) == moves[i].Destination(root)
  {
    var k := |moves| - 1;
    if i < k {
      DestOfSource(root, moves[..k], i);
      BuildIsInjective(root, moves[i].from, moves[k].from);
    }
  }

  lemma SlashesSame(s: string)
    ensures Slashes(s) == s <==> '\\' !in s
  {
  }

  /** A rewritten reference names the place where its file now is, if and only if the file did not
      move or its name has no backslash. */
  lemma RewrittenRefFollowsFile(root: string, moves: seq<Move>, ref: string)
    requires GoodMoves(moves)
    ensures var path := Expand(root, ref);
            Expand(root, RewriteAll(root, moves, ref)) == Dest(root, moves, path)
            <==> Dest(root, moves, path) == path || !HasBackslash(root, path)
  {
    hide *;
    RewrittenRefIsMoved(root, moves, ref);
    SamePlaceIff(root, moves, Expand(root, ref));
  }

  lemma SamePlaceIff(root: string, moves: seq<Move>, path: string)
    requires GoodMoves(moves)
    ensures RefDest(root, moves, path) == Dest(root, moves, path)
            <==> Dest(root, moves, path) == path || !HasBackslash(root, path)
    ensures Dest(root, moves, path) == path ==> forall i :: 0 <= i < |moves| ==> path != moves[i].Source(root)
  {
    var arrived := Arrived(moves);
    hide Slashes, Build, Relative;
    DestCases(root, moves, path);
    DestCases(root, arrived, path);
    if i :| 0 <= i < |moves| && path == moves[i].Source(root) && Dest(root, moves, path) == moves[i].Destination(root) {
      DestOfSource(root, arrived, i);
      BuildIsInjective(root, moves[i].to, moves[i].from);
      BuildIsInjective(root, moves[i].to, Slashes(moves[i].to));
      SlashesSame(moves[i].to);
      RelativeToBuild(root, moves[i].from);
    }
  }

  /** UpdateProfileFromMoves rewrites every reference under the known keys, keeps their number
      and order, and leaves all other keys alone. */
  lemma {:induction false} UpdateFromMovesRefs(root: string, moves: seq<Move>, p: Profile, key: string)
    requires GoodMoves(moves)
    ensures var before, after := ProfileRefs(p, key), ProfileRefs(UpdateFromMoves(root, moves, p), key);
            if key in KEYS
            then |after| == |before| && forall i :: 0 <= i < |before| ==> after[i] == RewriteAll(root, moves, before[i])
            else after == before
  {
    if moves != [] {
      hide KEYS, LIST_KEYS, Refs, Expand, Stored, UpdateKeys, Slashes;
      var k := |moves| - 1;
      GoodPrefix(moves);
      UpdateFromMovesRefs(root, moves[..k], p, key);
      BuildIsInjective(root, moves[k].from, Slashes(moves[k].to));
      assert Arrived(moves)[k].to == Slashes(moves[k].to);
      UpdateKeysRefs(root, moves[k], UpdateFromMoves(root, moves[..k], p), KEYS, key);
    }
  }

  // Profiles that refer to no moved file stay as they are

  predicate RefersTo(root: string, p: Profile, path: string) {
    exists key, i :: key in KEYS && 0 <= i < |ProfileRefs(p, key)| && Expand(root, ProfileRefs(p, key)[i]) == path
  }

  lemma {:induction false} InNonEmpty(parts: seq<string>, i: nat)
    requires i < |parts| && parts[i] != ""
    ensures parts[i] in NonEmpty(parts)
  {
    var k := |parts| - 1;
    if i < k {
      InNonEmpty(parts[..k], i);
    }
  }

  lemma NoReferenceNoUpdate(root: string, m: Move, p: Profile, key: string)
    requires !RefersTo(root, p, m.Source(root)) && key in KEYS && Expand(root, "") != m.Source(root)
    ensures (if key in LIST_KEYS then UpdateMultiple(root, m, p, key) else UpdateSingle(root, m, p, key)) == p
  {
    hide Expand, Stored, KEYS, LIST_KEYS;
    if key in p && p[key] != "" {
      var refs := ProfileRefs(p, key);
      if key in LIST_KEYS {
        var parts := Split(p[key]);
        forall i | 0 <= i < |parts|
          ensures Expand(root, parts[i]) != m.Source(root)
        {
          if parts[i] != "" {
            InNonEmpty(parts, i);
            var j :| 0 <= j < |refs| && refs[j] == parts[i];
          }
        }
      } else {
        assert refs[0] == p[key];
      }
    }
  }

  lemma {:induction false} NoReferenceNoUpdates(root: string, m: Move, p: Profile, keys: seq<string>)
    requires !RefersTo(root, p, m.Source(root)) && Expand(root, "") != m.Source(root)
    requires forall i :: 0 <= i < |keys| ==> keys[i] in KEYS
    ensures UpdateKeys(root, m, p, keys) == p
  {
    if keys != [] {
      hide Expand, KEYS, LIST_KEYS, RefersTo, UpdateSingle, UpdateMultiple;
      NoReferenceNoUpdates(root, m, p, keys[..|keys| - 1]);
      NoReferenceNoUpdate(root, m, p, keys[|keys| - 1]);
    }
  }

  /** A profile that refers to no source of the moves is not changed at all, not even in the form
      its paths are written. */
  lemma {:induction false} NoReferenceNoChange(root: string, moves: seq<Move>, p: Profile)
    requires GoodMoves(moves) && forall i :: 0 <= i < |moves| ==> !RefersTo(root, p, moves[i].Source(root))
    ensures UpdateFromMoves(root, moves, p) == p
  {
    if moves != [] {
      hide Expand, Stored, KEYS, RefersTo, UpdateKeys;
      var k := |moves| - 1;
      assert forall i :: 0 <= i < k ==> moves[..k][i] == moves[i];
      GoodPrefix(moves);
      NoReferenceNoChange(root, moves[..k], p);
      StoredMove(root, moves[k]);
      NoReferenceNoUpdates(root, moves[k], p, KEYS);
    }
  }

  /** After an update no reference names a place that was moved away from, so a second update
      with moves from the same places changes nothing. */
  lemma UpdateLeavesNoSource(root: string, moves: seq<Move>, p: Profile, path: string)
    requires GoodMoves(moves) && exists i :: 0 <= i < |moves| && moves[i].Source(root) == path
    ensures !RefersTo(root, UpdateFromMoves(root, moves, p), path)
  {
    hide Expand, KEYS, UpdateFromMoves, ProfileRefs;
    var q := UpdateFromMoves(root, moves, p);
    forall key, i | key in KEYS && 0 <= i < |ProfileRefs(q, key)|
      ensures Expand(root, ProfileRefs(q, key)[i]) != path
    {
      UpdateFromMovesRefs(root, moves, p, key);
      var ref := ProfileRefs(p, key)[i];
      RewrittenRefIsMoved(root, moves, ref);
      var j :| 0 <= j < |moves| && moves[j].Source(root) == path;
      assert Arrived(moves)[j].from == moves[j].from;
      DestIsNoSource(root, Arrived(moves), Expand(root, ref), path);
    }
  }

  lemma DestIsNoSource(root: string, moves: seq<Move>, path: string, source: string)
    requires Apart(moves) && exists i :: 0 <= i < |moves| && moves[i].Source(root) == source
    ensures Dest(root, moves, path) != source
  {
    var i :| 0 <= i < |moves| && moves[i].Source(root) == source;
    DestCases(root, moves, path);
    if j :| 0 <= j < |moves| && path == moves[j].Source(root) && Dest(root, moves, path) == moves[j].Destination(root) {
      BuildIsInjective(root, moves[j].to, moves[i].from);
    }
  }
}
