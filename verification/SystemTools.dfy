/** The catalogue of installed system tools (LoadInstalled in src/SystemTools.cpp). */
module SystemTools {
  import opened Common
  import opened Permutations

  import opened ToolDescriptor

  datatype Origin = SYSTEM | USER

  datatype Tool = Tool(id: string, descriptor: Descriptor, executable: string, origin: Origin)

  const MAX_INSTALLED_TOOLS := 64

  // Merging the system directories

  datatype Catalogue = Catalogue(tools: seq<Tool>, duplicates: seq<string>)

  function Ids(tools: seq<Tool>): (r: seq<string>)
    ensures |r| == |tools| && forall i :: 0 <= i < |r| ==> r[i] == tools[i].id
  {
    seq(|tools|, i requires 0 <= i < |tools| => tools[i].id)
  }

  /** The place of the first tool with the id, or the length if there is none. */
  function IndexOf(tools: seq<Tool>, id: string): (i: nat)
    ensures i <= |tools| && (i < |tools| ==> tools[i].id == id) && forall k :: 0 <= k < i ==> tools[k].id != id
  {
    if tools == [] || tools[0].id == id then 0 else 1 + IndexOf(tools[1..], id)
  }

  function MergeOne(c: Catalogue, tool: Tool): Catalogue {
    if tool.id in c.duplicates then c
    else
      var i := IndexOf(c.tools, tool.id);
      if i < |c.tools| then Catalogue(Remove(c.tools, i), c.duplicates + [tool.id])
      else c.(tools := c.tools + [tool])
  }

  function Merge(c: Catalogue, tools: seq<Tool>): Catalogue {
    if tools == [] then c else MergeOne(Merge(c, tools[..|tools| - 1]), tools[|tools| - 1])
  }

  /** merge_tools */
  method MergeTools(c: Catalogue, installed: seq<Tool>) returns (r: Catalogue)
    ensures r == Merge(c, installed)
  {
    var tools, duplicates := c.tools, c.duplicates;
    for n := 0 to |installed|
      invariant Catalogue(tools, duplicates) == Merge(c, installed[..n])
    {
      assert installed[..n + 1][..n] == installed[..n];
      var tool := installed[n];
      if tool.id in duplicates {
        continue;
      }
      var existing := IndexOf(tools, tool.id);
      if existing < |tools| {
        duplicates := duplicates + [tool.id];
        tools := Remove(tools, existing);
      } else {
        tools := tools + [tool];
      }
    }
    assert installed[..|installed|] == installed;
    return Catalogue(tools, duplicates);
  }

  lemma {:induction false} MergeConcat(c: Catalogue, a: seq<Tool>, b: seq<Tool>)
    ensures Merge(c, a + b) == Merge(Merge(c, a), b)
    decreases |b|
  {
    if b == [] {
      assert a + b == a;
    } else {
      MergeConcat(c, a, b[..|b| - 1]);
      assert (a + b)[..|a + b| - 1] == a + b[..|b| - 1];
    }
  }

  // What merging keeps

  function Count(ids: seq<string>, id: string): nat {
    multiset(ids)[id]
  }

  /** The tools whose id occurs only once in `ids`. */
  function Singles(tools: seq<Tool>, ids: seq<string>): seq<Tool> {
    if tools == [] then []
    else
      var k := |tools| - 1;
      Singles(tools[..k], ids) + (if Count(ids, tools[k].id) == 1 then [tools[k]] else [])
  }

  lemma {:induction false} SinglesAre(tools: seq<Tool>, ids: seq<string>)
    ensures forall t :: t in Singles(tools, ids) <==> t in tools && Count(ids, t.id) == 1
  {
    if tools != [] {
      hide Count;
      var k := |tools| - 1;
      SinglesAre(tools[..k], ids);
      assert tools == tools[..k] + [tools[k]];
    }
  }

  lemma {:induction false} SinglesAgree(tools: seq<Tool>, a: seq<string>, b: seq<string>)
    requires forall i :: 0 <= i < |tools| ==> (Count(a, tools[i].id) == 1 <==> Count(b, tools[i].id) == 1)
    ensures Singles(tools, a) == Singles(tools, b)
  {
    if tools != [] {
      SinglesAgree(tools[..|tools| - 1], a, b);
    }
  }

  lemma CountOneMore(ids: seq<string>, last: string, id: string)
    ensures Count(ids + [last], id) == Count(ids, id) + (if id == last then 1 else 0)
  {
  }

  function DropId(tools: seq<Tool>, id: string): seq<Tool> {
    if tools == [] then []
    else
      var k := |tools| - 1;
      DropId(tools[..k], id) + (if tools[k].id == id then [] else [tools[k]])
  }

  lemma {:induction false} SecondOccurrenceDrops(tools: seq<Tool>, ids: seq<string>, id: string)
    requires Count(ids, id) == 1
    ensures Singles(tools, ids + [id]) == DropId(Singles(tools, ids), id)
  {
    hide Count;
    if tools != [] {
      var k := |tools| - 1;
      SecondOccurrenceDrops(tools[..k], ids, id);
      CountOneMore(ids, id, tools[k].id);
      var s := Singles(tools[..k], ids);
      assert (s + [tools[k]])[..|s|] == s && s + [] == s && DropId(s, id) + [] == DropId(s, id);
    }
  }

  predicate DistinctIds(tools: seq<Tool>) {
    forall i, j :: 0 <= i < j < |tools| ==> tools[i].id != tools[j].id
  }

  lemma {:induction false} DropIdNothing(tools: seq<Tool>, id: string)
    requires forall i :: 0 <= i < |tools| ==> tools[i].id != id
    ensures DropId(tools, id) == tools
  {
    if tools != [] {
      DropIdNothing(tools[..|tools| - 1], id);
    }
  }

  lemma {:induction false} DropIdIsRemove(tools: seq<Tool>, i: nat)
    requires DistinctIds(tools) && i < |tools|
    ensures DropId(tools, tools[i].id) == Remove(tools, i)
  {
    var k := |tools| - 1;
    if i < k {
      DropIdIsRemove(tools[..k], i);
      assert Remove(tools, i) == Remove(tools[..k], i) + [tools[k]];
    } else {
      DropIdNothing(tools[..k], tools[k].id);
      assert Remove(tools, k) == tools[..k];
    }
  }

  lemma IdsOneMore(tools: seq<Tool>, last: Tool, id: string)
    ensures Ids(tools + [last]) == Ids(tools) + [last.id]
    ensures Count(Ids(tools + [last]), id) == Count(Ids(tools), id) + (if id == last.id then 1 else 0)
  {
    assert Ids(tools + [last]) == Ids(tools) + [last.id];
  }

  lemma {:induction false} IdsAreCounted(tools: seq<Tool>, id: string)
    ensures Count(Ids(tools), id) > 0 <==> exists i :: 0 <= i < |tools| && tools[i].id == id
  {
    if tools != [] {
      var k := |tools| - 1;
      IdsAreCounted(tools[..k], id);
      assert tools == tools[..k] + [tools[k]];
      IdsOneMore(tools[..k], tools[k], id);
    }
  }

  lemma {:induction false} SinglesHaveDistinctIds(tools: seq<Tool>, ids: seq<string>)
    requires forall id :: Count(Ids(tools), id) <= Count(ids, id)
    ensures DistinctIds(Singles(tools, ids))
  {
    if tools != [] {
      var k := |tools| - 1;
      assert tools == tools[..k] + [tools[k]];
      forall id
        ensures Count(Ids(tools[..k]), id) <= Count(ids, id)
        ensures id == tools[k].id ==> Count(Ids(tools[..k]), id) < Count(ids, id)
      {
        IdsOneMore(tools[..k], tools[k], id);
      }
      hide Count;
      SinglesHaveDistinctIds(tools[..k], ids);
      IdsAreCounted(tools[..k], tools[k].id);
      var s := Singles(tools[..k], ids);
      SinglesAre(tools[..k], ids);
      forall i | 0 <= i < |s| && Count(ids, tools[k].id) == 1
        ensures s[i].id != tools[k].id
      {
        assert s[i] in tools[..k];
      }
    }
  }

  /** After merging `all`: the tools whose id occurs once, in order, and the ids that occur more
      than once. */
  ghost predicate Merged(all: seq<Tool>, c: Catalogue) {
    && c.tools == Singles(all, Ids(all))
    && forall id :: id in c.duplicates <==> Count(Ids(all), id) >= 2
  }

  lemma SinglesAfter(all: seq<Tool>, tool: Tool)
    ensures Ids(all + [tool]) == Ids(all) + [tool.id]
    ensures forall id :: Count(Ids(all) + [tool.id], id) == Count(Ids(all), id) + (if id == tool.id then 1 else 0)
    ensures Count(Ids(all), tool.id) >= 2 ==> Singles(all + [tool], Ids(all) + [tool.id]) == Singles(all, Ids(all))
    ensures Count(Ids(all), tool.id) == 1 ==>
              Singles(all + [tool], Ids(all) + [tool.id]) == DropId(Singles(all, Ids(all)), tool.id)
    ensures Count(Ids(all), tool.id) == 0 ==>
              Singles(all + [tool], Ids(all) + [tool.id]) == Singles(all, Ids(all)) + [tool]
  {
    var more, ids := all + [tool], Ids(all);
    assert more[..|all|] == all;
    forall id
      ensures Ids(more) == ids + [tool.id]
              && Count(ids + [tool.id], id) == Count(ids, id) + (if id == tool.id then 1 else 0)
    {
      IdsOneMore(all, tool, id);
    }
    hide Count, Ids, DropId;
    if Count(ids, tool.id) == 1 {
      SecondOccurrenceDrops(all, ids, tool.id);
    } else {
      forall j | 0 <= j < |all|
        ensures Count(ids, all[j].id) == 1 <==> Count(ids + [tool.id], all[j].id) == 1
      {
        IdsAreCounted(all, all[j].id);
      }
      SinglesAgree(all, ids, ids + [tool.id]);
    }
  }

  lemma MergeOneKeeps(all: seq<Tool>, c: Catalogue, tool: Tool)
    requires Merged(all, c)
    ensures Merged(all + [tool], MergeOne(c, tool))
  {
    hide Count, Ids, Singles, DropId;
    SinglesAfter(all, tool);
    SinglesHaveDistinctIds(all, Ids(all));
    SinglesAre(all, Ids(all));
    IdsAreCounted(all, tool.id);
    var i := IndexOf(c.tools, tool.id);
    if tool.id !in c.duplicates {
      if i < |c.tools| {
        assert c.tools[i] in Singles(all, Ids(all));
        DropIdIsRemove(c.tools, i);
      }
    }
  }

  lemma {:induction false} MergingKeepsSingles(tools: seq<Tool>)
    ensures Merged(tools, Merge(Catalogue([], []), tools))
  {
    hide Merged;
    if tools == [] {
      NothingMerged();
    } else {
      var k := |tools| - 1;
      MergingKeepsSingles(tools[..k]);
      MergeOneKeeps(tools[..k], Merge(Catalogue([], []), tools[..k]), tools[k]);
      assert tools[..k] + [tools[k]] == tools;
    }
  }

  lemma NothingMerged()
    ensures Merged([], Catalogue([], [])) && Merge(Catalogue([], []), []) == Catalogue([], [])
  {
  }

  // The order of the directories does not matter

  lemma {:induction false} SinglesMultiset(tools: seq<Tool>, ids: seq<string>, t: Tool)
    ensures multiset(Singles(tools, ids))[t] == if Count(ids, t.id) == 1 then multiset(tools)[t] else 0
  {
    if tools != [] {
      var k := |tools| - 1;
      assert tools == tools[..k] + [tools[k]];
      LastSingle(tools, ids);
      hide Count, Singles;
      SinglesMultiset(tools[..k], ids, t);
      OneMoreCounted(tools[..k], tools[k], t);
      OneMoreCounted(Singles(tools[..k], ids), tools[k], t);
    }
  }

  lemma LastSingle(tools: seq<Tool>, ids: seq<string>)
    requires tools != []
    ensures var k := |tools| - 1;
            Singles(tools, ids) == Singles(tools[..k], ids) + (if Count(ids, tools[k].id) == 1 then [tools[k]] else [])
  {
  }

  lemma OneMoreCounted(tools: seq<Tool>, last: Tool, t: Tool)
    ensures multiset(tools + [last])[t] == multiset(tools)[t] + (if t == last then 1 else 0)
  {
  }

  lemma {:induction false} IdsAnyOrder(a: seq<Tool>, b: seq<Tool>)
    requires multiset(a) == multiset(b)
    ensures multiset(Ids(a)) == multiset(Ids(b))
  {
    if a == [] {
      NothingElsewhere(b);
    } else {
      var i := FirstElsewhere(a, b);
      IdsAnyOrder(a[1..], Remove(b, i));
      assert Ids(a) == [a[0].id] + Ids(a[1..]);
      RemoveOne(Ids(b), i);
      assert Remove(Ids(b), i) == Ids(Remove(b, i));
    }
  }

  /** Merging keeps exactly the tools whose id occurs once in all directories together, whatever
      the order of the directories and of the files in them. */
  lemma MergeOrderDoesNotMatter(a: seq<Tool>, b: seq<Tool>)
    requires multiset(a) == multiset(b)
    ensures multiset(Merge(Catalogue([], []), a).tools) == multiset(Merge(Catalogue([], []), b).tools)
    ensures forall t :: t in Merge(Catalogue([], []), a).tools <==> t in a && Count(Ids(a), t.id) == 1
    ensures DistinctIds(Merge(Catalogue([], []), a).tools)
  {
    MergingKeepsSingles(a);
    MergingKeepsSingles(b);
    IdsAnyOrder(a, b);
    SinglesHaveDistinctIds(a, Ids(a));
    SinglesAre(a, Ids(a));
    hide Merge;
    var s, t := Singles(a, Ids(a)), Singles(b, Ids(b));
    forall x
      ensures multiset(s)[x] == multiset(t)[x]
    {
      SinglesMultiset(a, Ids(a), x);
      SinglesMultiset(b, Ids(b), x);
    }
  }

  // The user's tools

  predicate HasId(tools: seq<Tool>, id: string) {
    exists i :: 0 <= i < |tools| && tools[i].id == id
  }

  /** std::erase_if of the tools that the user overrides. */
  function NotOverridden(tools: seq<Tool>, personal: seq<Tool>): seq<Tool> {
    if tools == [] then []
    else
      var k := |tools| - 1;
      NotOverridden(tools[..k], personal) + (if HasId(personal, tools[k].id) then [] else [tools[k]])
  }

  /** std::count_if */
  function Overridden(tools: seq<Tool>, personal: seq<Tool>): nat {
    if tools == [] then 0
    else
      var k := |tools| - 1;
      Overridden(tools[..k], personal) + (if HasId(personal, tools[k].id) then 1 else 0)
  }

  /** The size that is checked in advance is the size of the result. */
  lemma {:induction false} CombinedSizeIsFinalSize(tools: seq<Tool>, personal: seq<Tool>)
    ensures Overridden(tools, personal) <= |tools|
    ensures |NotOverridden(tools, personal) + personal| == |tools| + |personal| - Overridden(tools, personal)
  {
    if tools != [] {
      CombinedSizeIsFinalSize(tools[..|tools| - 1], personal);
    }
  }

  lemma {:induction false} NotOverriddenAre(tools: seq<Tool>, personal: seq<Tool>)
    ensures forall t :: t in NotOverridden(tools, personal) <==> t in tools && !HasId(personal, t.id)
    ensures DistinctIds(tools) ==> DistinctIds(NotOverridden(tools, personal))
  {
    if tools != [] {
      hide HasId;
      var k := |tools| - 1;
      NotOverriddenAre(tools[..k], personal);
      assert tools == tools[..k] + [tools[k]];
      var s := NotOverridden(tools[..k], personal);
      forall i | 0 <= i < |s| && DistinctIds(tools)
        ensures s[i].id != tools[k].id
      {
        assert s[i] in tools[..k];
      }
    }
  }

  /** With the user's tools all ids are different, every one of them is there, and a system tool is
      there exactly if none of them has its id. */
  lemma OverrideIsConsistent(tools: seq<Tool>, personal: seq<Tool>)
    requires DistinctIds(tools) && DistinctIds(personal)
    ensures var all := NotOverridden(tools, personal) + personal;
            && DistinctIds(all)
            && forall t :: t in all <==> t in personal || (t in tools && !HasId(personal, t.id))
  {
    NotOverriddenAre(tools, personal);
    var s := NotOverridden(tools, personal);
    forall i, j | 0 <= i < |s| && 0 <= j < |personal|
      ensures s[i].id != personal[j].id
    {
      assert s[i] in s;
    }
  }

  // Loading

  /** What a directory yields; None if it holds too many tools. */
  type Load = string -> Option<seq<Tool>>

  function Earlier(directories: seq<string>, i: nat): bool
    requires i < |directories|
  {
    exists j :: 0 <= j < i && directories[j] == directories[i]
  }

  /** The tools of all directories, each taken once. */
  function Contents(directories: seq<string>, load: Load): Option<seq<Tool>> {
    if directories == [] then Some([])
    else
      var k := |directories| - 1;
      var init := Contents(directories[..k], load);
      if init.None? then None
      else if Earlier(directories, k) then init
      else if load(directories[k]).None? then None
      else Some(init.value + load(directories[k]).value)
  }

  /** A directory contributes when it is named first, and loading fails if one directory does. */
  lemma OneMoreDirectory(directories: seq<string>, d: string, load: Load)
    ensures Contents([], load) == Some([])
    ensures var before, after := Contents(directories, load), Contents(directories + [d], load);
            && (d in directories ==> after == before)
            && (d !in directories ==>
                  after == if before.None? || load(d).None? then None else Some(before.value + load(d).value))
  {
    var more, k := directories + [d], |directories|;
    assert more[..k] == directories && more[k] == d;
    assert Earlier(more, k) <==> d in directories;
    if d in directories {
      var j :| 0 <= j < k && directories[j] == d;
      assert more[j] == d;
    }
  }

  lemma {:induction false} ContentsMeaning(directories: seq<string>, load: Load)
    ensures Contents(directories, load).Some? <==> forall d :: d in directories ==> load(d).Some?
    ensures Contents(directories, load).Some? ==>
              forall t :: t in Contents(directories, load).value
                          <==> exists d :: d in directories && load(d).Some? && t in load(d).value
  {
    if directories != [] {
      var k := |directories| - 1;
      var init, d := directories[..k], directories[k];
      assert directories == init + [d];
      ContentsMeaning(init, load);
      OneMoreDirectory(init, d, load);
      hide Contents;
      forall e
        ensures e in directories <==> e in init || e == d
      {
      }
    }
  }

  /** `user` is the user's directory, and `personal` what it yields: None if it fails. */
  method LoadInstalled(directories: seq<string>, load: Load, user: Option<string>, personal: Option<seq<Tool>>)
    returns (tools: seq<Tool>)
    ensures var all := Contents(directories, load);
            if all.None? then tools == []
            else
              var system := Singles(all.value, Ids(all.value));
              if |system| > 64 then tools == []
              else if user.None? || user.value in directories || personal.None?
                      || |NotOverridden(system, personal.value) + personal.value| > 64
              then tools == system
              else tools == NotOverridden(system, personal.value) + personal.value
  {
    hide Merge, Singles, NotOverridden, Overridden;
    NothingMerged();
    var loaded: seq<string> := [];
    var c := Catalogue([], []);
    ghost var all: seq<Tool> := [];
    for i := 0 to |directories|
      invariant Contents(directories[..i], load) == Some(all) && c == Merge(Catalogue([], []), all)
      invariant forall d :: d in loaded <==> d in directories[..i]
    {
      var directory := directories[i];
      ContentsOneMore(directories, load, i);
      if directory in loaded {
        continue;
      }
      loaded := loaded + [directory];
      var installed := load(directory);
      if installed.None? {
        NothingLoaded(directories, load, i + 1);
        return [];
      }
      MergeConcat(Catalogue([], []), all, installed.value);
      c := MergeTools(c, installed.value);
      all := all + installed.value;
    }
    assert directories[..|directories|] == directories;
    MergingKeepsSingles(all);
    tools := c.tools;
    if |tools| > MAX_INSTALLED_TOOLS {
      return [];
    }
    if user.Some? && user.value !in loaded && personal.Some? {
      CombinedSizeIsFinalSize(tools, personal.value);
      var combinedSize := |tools| + |personal.value| - Overridden(tools, personal.value);
      if combinedSize <= MAX_INSTALLED_TOOLS {
        tools := NotOverridden(tools, personal.value) + personal.value;
      }
    }
  }

  lemma ContentsOneMore(directories: seq<string>, load: Load, i: nat)
    requires i < |directories| && Contents(directories[..i], load).Some?
    ensures var before := Contents(directories[..i], load).value;
            Contents(directories[..i + 1], load)
            == if directories[i] in directories[..i] then Some(before)
               else if load(directories[i]).None? then None else Some(before + load(directories[i]).value)
  {
    var more := directories[..i + 1];
    assert more[..i] == directories[..i];
    assert Earlier(more, i) <==> directories[i] in directories[..i];
  }

  lemma {:induction false} NothingLoaded(directories: seq<string>, load: Load, i: nat)
    requires i <= |directories| && Contents(directories[..i], load).None?
    ensures Contents(directories, load).None?
  {
    if i == |directories| {
      assert directories[..i] == directories;
    } else {
      var k := |directories| - 1;
      assert directories[..k][..i] == directories[..i];
      NothingLoaded(directories[..k], load, i);
    }
  }
}
