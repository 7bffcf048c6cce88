/** `get_all_notebooks` (final_notebook_count.py): the direct notebook listing, then the
    names of `.one` files found by a drive search, added in sorted order unless a notebook
    of that name is already listed. */
module NotebookCount {
  import opened Base
  import opened Text
  import opened Graph

  /** One notebook record: `{'id', 'name', 'source', 'sections'}`; `sections` is `None` for
      `'Unknown'`. */
  datatype Entry = Entry(id: string, name: string, source: string, sections: Option<nat>)

  /** `notebook['id']` or `notebook['displayName']` raises `KeyError`. */
  predicate Malformed(notebook: Obj)
  {
    notebook.id.None? || notebook.displayName.None?
  }

  /** The record of a well-formed listed notebook. */
  function DirectEntryOf(notebook: Obj): Entry
  {
    Entry(notebook.id.GetOr(""), notebook.displayName.GetOr(""), "direct",
      match notebook.sections case None => None case Some(sections) => Some(|sections|))
  }

  /** How many listed notebooks are recorded before the first `KeyError` ends the loop. */
  function RecordedCount(notebooks: seq<Obj>): (k: nat)
    ensures k <= |notebooks|
  {
    FirstIndex(notebooks, Malformed).GetOr(|notebooks|)
  }

  /** The records of the direct method for a 200 listing. */
  function DirectEntries(notebooks: seq<Obj>): seq<Entry>
  {
    Map(DirectEntryOf, notebooks[..RecordedCount(notebooks)])
  }

  /** `resource.get('name', '')` of one search hit. */
  function HitName(hit: Obj): string
  {
    hit.resource.GetOr(EmptyObj).name.GetOr("")
  }

  predicate IsOneHit(hit: Obj)
  {
    EndsWith(HitName(hit), ".one")
  }

  /** The names a list of hits adds to `drive_notebooks`. */
  function HitNames(hits: seq<Obj>): set<string>
  {
    set h | h in hits && IsOneHit(h) :: Remove(HitName(h), ".one")
  }

  /** `hit.get('hits', [])` of one hits container. */
  function ContainerHits(container: Obj): seq<Obj>
  {
    container.hits.GetOr([])
  }

  /** The hits of one search result, over all its hits containers. */
  function ResultHits(result: Obj): seq<Obj>
  {
    Flatten(Map(ContainerHits, result.hitsContainers.GetOr([])))
  }

  /** Every hit of a search reply, in reply order. */
  function AllHits(body: Obj): seq<Obj>
  {
    Flatten(Map(ResultHits, Items(body)))
  }

  /** `drive_notebooks` after the three nested loops. */
  function SearchNames(body: Obj): set<string>
  {
    HitNames(AllHits(body))
  }

  /** The record added for a search name. */
  function SearchEntry(name: string): Entry
  {
    Entry("drive-search", name, "drive-search", None)
  }

  /** `any(nb['name'] == name for nb in notebooks)`. */
  predicate HasName(notebooks: seq<Entry>, name: string)
  {
    exists i :: 0 <= i < |notebooks| && notebooks[i].name == name
  }

  /** The list after the final loop over `names`, starting from `notebooks`. */
  function Merge(notebooks: seq<Entry>, names: seq<string>): seq<Entry>
  {
    if names == [] then notebooks
    else
      var prev := Merge(notebooks, names[..|names| - 1]);
      var name := names[|names| - 1];
      if HasName(prev, name) then prev else prev + [SearchEntry(name)]
  }

  /** `get_all_notebooks` for the reply of the direct listing and that of the drive search. */
  ghost function AllNotebooks(direct: Reply, search: Reply): seq<Entry>
  {
    var listed := if direct.Ok? then DirectEntries(Items(direct.body)) else [];
    if search.Ok? then Merge(listed, SortedSet(SearchNames(search.body))) else listed
  }

  /** Method 1's loop: one record per listed notebook until a `KeyError`. */
  method ListDirect(notebooks: seq<Obj>) returns (entries: seq<Entry>)
    ensures entries == DirectEntries(notebooks)
  {
    entries := [];
    var i := 0;
    while i < |notebooks|
      invariant 0 <= i <= |notebooks|
      invariant forall j :: 0 <= j < i ==> !Malformed(notebooks[j])
      invariant entries == Map(DirectEntryOf, notebooks[..i])
    {
      var notebook := notebooks[i];
      if Malformed(notebook) {
        return;
      }
      var sections: Option<nat> := None;
      if notebook.sections.Some? {
        sections := Some(|notebook.sections.value|);
      }
      MapSnoc(DirectEntryOf, notebooks, i);
      entries := entries + [Entry(notebook.id.value, notebook.displayName.value, "direct", sections)];
      i := i + 1;
    }
    assert notebooks[..i] == notebooks;
  }

  lemma HitNamesAppend(a: seq<Obj>, b: seq<Obj>)
    ensures HitNames(a + b) == HitNames(a) + HitNames(b)
  {
    forall n | n in HitNames(a + b) ensures n in HitNames(a) + HitNames(b) {
      var h :| h in a + b && IsOneHit(h) && Remove(HitName(h), ".one") == n;
      if h in a {
        assert n in HitNames(a);
      } else {
        assert n in HitNames(b);
      }
    }
    forall n | n in HitNames(a) + HitNames(b) ensures n in HitNames(a + b) {
      if n in HitNames(a) {
        var h :| h in a && IsOneHit(h) && Remove(HitName(h), ".one") == n;
        assert h in a + b;
      } else {
        var h :| h in b && IsOneHit(h) && Remove(HitName(h), ".one") == n;
        assert h in a + b;
      }
    }
  }

  /** The innermost loop: `drive_notebooks.add(...)` for each `.one` hit. */
  method AddHitNames(names: set<string>, hits: seq<Obj>) returns (r: set<string>)
    ensures r == names + HitNames(hits)
  {
    r := names;
    var i := 0;
    while i < |hits|
      invariant 0 <= i <= |hits|
      invariant r == names + HitNames(hits[..i])
    {
      var hit := hits[i];
      assert hits[..i + 1] == hits[..i] + [hit];
      HitNamesAppend(hits[..i], [hit]);
      var resource := hit.resource.GetOr(EmptyObj);
      if EndsWith(resource.name.GetOr(""), ".one") {
        assert HitNames([hit]) == {Remove(HitName(hit), ".one")};
        r := r + {Remove(resource.name.GetOr(""), ".one")};
      } else {
        assert HitNames([hit]) == {};
      }
      i := i + 1;
    }
    assert hits[..i] == hits;
  }

  /** The middle loop, over the hits containers of one result. */
  method AddResultNames(names: set<string>, result: Obj) returns (r: set<string>)
    ensures r == names + HitNames(ResultHits(result))
  {
    var containers := result.hitsContainers.GetOr([]);
    r := names;
    var i := 0;
    while i < |containers|
      invariant 0 <= i <= |containers|
      invariant r == names + HitNames(Flatten(Map(ContainerHits, containers[..i])))
    {
      MapSnoc(ContainerHits, containers, i);
      FlattenAppend(Map(ContainerHits, containers[..i]), ContainerHits(containers[i]));
      HitNamesAppend(Flatten(Map(ContainerHits, containers[..i])), ContainerHits(containers[i]));
      r := AddHitNames(r, containers[i].hits.GetOr([]));
      i := i + 1;
    }
    assert containers[..i] == containers;
  }

  /** The outer loop, over the results of a 200 search reply. */
  method CollectSearchNames(body: Obj) returns (names: set<string>)
    ensures names == SearchNames(body)
  {
    var results := Items(body);
    names := {};
    var i := 0;
    while i < |results|
      invariant 0 <= i <= |results|
      invariant names == HitNames(Flatten(Map(ResultHits, results[..i])))
    {
      MapSnoc(ResultHits, results, i);
      FlattenAppend(Map(ResultHits, results[..i]), ResultHits(results[i]));
      HitNamesAppend(Flatten(Map(ResultHits, results[..i])), ResultHits(results[i]));
      names := AddResultNames(names, results[i]);
      i := i + 1;
    }
    assert results[..i] == results;
  }

  /** `sorted(drive_notebooks)`: repeatedly take the least remaining name. */
  method SortNames(names: set<string>) returns (sorted: seq<string>)
    ensures sorted == SortedSet(names)
  {
    sorted := [];
    var remaining := names;
    while remaining != {}
      invariant SortedSet(names) == sorted + SortedSet(remaining)
      decreases |remaining|
    {
      LeastExists(remaining);
      var m :| m in remaining && forall x :: x in remaining && x != m ==> Below(m, x);
      LeastUnique(m, Least(remaining), remaining);
      assert SortedSet(remaining) == [m] + SortedSet(remaining - {m});
      sorted := sorted + [m];
      remaining := remaining - {m};
    }
  }

  lemma MergeSnoc(notebooks: seq<Entry>, names: seq<string>, name: string)
    ensures Merge(notebooks, names + [name])
         == var prev := Merge(notebooks, names); if HasName(prev, name) then prev else prev + [SearchEntry(name)]
  {
    assert (names + [name])[..|names|] == names;
  }

  /** The final loop: add each search name that no record carries yet. */
  method MergeNames(notebooks: seq<Entry>, names: seq<string>) returns (r: seq<Entry>)
    ensures r == Merge(notebooks, names)
  {
    r := notebooks;
    var i := 0;
    while i < |names|
      invariant 0 <= i <= |names|
      invariant r == Merge(notebooks, names[..i])
    {
      var name := names[i];
      assert names[..i + 1] == names[..i] + [name];
      MergeSnoc(notebooks, names[..i], name);
      var taken := exists j :: 0 <= j < |r| && r[j].name == name;
      if !taken {
        r := r + [SearchEntry(name)];
      }
      i := i + 1;
    }
    assert names[..i] == names;
  }

  /** `get_all_notebooks(token)` once both requests have been answered. */
  method GetAllNotebooks(direct: Reply, search: Reply) returns (notebooks: seq<Entry>)
    ensures notebooks == AllNotebooks(direct, search)
  {
    notebooks := [];
    if direct.Ok? {
      notebooks := ListDirect(Items(direct.body));
    }
    if search.Ok? {
      var names := CollectSearchNames(search.body);
      var sorted := SortNames(names);
      notebooks := MergeNames(notebooks, sorted);
    }
  }

  /** The direct method records the listed notebooks, in order, up to the first one missing
      `id` or `displayName`, each with source `direct` and its section count when the
      listing carries `sections`; with no such notebook every listed one is recorded. */
  lemma DirectEntriesSpec(notebooks: seq<Obj>)
    ensures var r := DirectEntries(notebooks);
      |r| <= |notebooks|
      && (|r| < |notebooks| ==> Malformed(notebooks[|r|]))
      && (forall j :: 0 <= j < |r| ==> !Malformed(notebooks[j]))
      && (forall j :: 0 <= j < |r| ==>
            r[j].source == "direct"
            && Some(r[j].id) == notebooks[j].id && Some(r[j].name) == notebooks[j].displayName
            && (r[j].sections.Some? <==> notebooks[j].sections.Some?)
            && (r[j].sections.Some? ==> r[j].sections.value == |notebooks[j].sections.value|))
  {
  }

  /** A name is collected exactly when some hit's name ends with `.one` and the name is that
      hit's name with every `.one` removed. */
  lemma SearchNamesExact(body: Obj, n: string)
    ensures n in SearchNames(body) <==>
      exists h :: h in AllHits(body) && EndsWith(HitName(h), ".one") && Remove(HitName(h), ".one") == n
  {
  }

  /** Text without a `.` is kept whole in front of whatever follows. */
  lemma {:induction false} RemoveKeepsUndotted(x: string, rest: string)
    requires '.' !in x
    ensures Remove(x + rest, ".one") == x + Remove(rest, ".one")
  {
    if x == [] {
      assert x + rest == rest;
    } else {
      assert x[0] in x && ".one"[0] == '.';
      RemoveKeepsUndotted(x[1..], rest);
      assert x + rest == [x[0]] + (x[1..] + rest);
      RemoveKeeps(x[0], x[1..] + rest, ".one");
      assert x == [x[0]] + x[1..];
    }
  }

  /** `str.replace` removes every `.one`, not just the suffix: a hit named
      `My.onenote.one` is collected as `Mynote`. */
  lemma InnerOccurrenceRemoved(first: string, middle: string)
    requires '.' !in first && '.' !in middle
    ensures Remove(first + ".one" + middle + ".one", ".one") == first + middle
  {
    RemoveDrops(".one", "");
    RemoveKeepsUndotted(middle, ".one");
    RemoveDrops(".one", middle + ".one");
    assert first + ".one" + middle + ".one" == first + (".one" + (middle + ".one"));
    RemoveKeepsUndotted(first, ".one" + (middle + ".one"));
    assert Remove("", ".one") == "";
    assert middle + "" == middle;
  }

  /** With distinct search names (a sorted set has no repeats), the final loop appends, in
      order, a `drive-search` record for exactly the names that no direct record carries. */
  lemma {:induction false} MergeCharacterised(notebooks: seq<Entry>, names: seq<string>)
    requires forall i, j :: 0 <= i < j < |names| ==> names[i] != names[j]
    ensures Merge(notebooks, names) == notebooks + Map(SearchEntry, Filter(names, n => !HasName(notebooks, n)))
  {
    var isNew := (n: string) => !HasName(notebooks, n);
    if names != [] {
      var k := |names| - 1;
      var init, name := names[..k], names[k];
      MergeCharacterised(notebooks, init);
      var added := Map(SearchEntry, Filter(init, isNew));
      FilterMapSnoc(names, k, isNew, SearchEntry);
      assert names[..k + 1] == names;
      LastNameNotAdded(notebooks, names);
      if isNew(name) {
        assert notebooks + added + [SearchEntry(name)] == notebooks + (added + [SearchEntry(name)]);
      } else {
        assert added + [] == added;
      }
    }
  }

  /** With distinct names, the last name is present after the earlier ones were merged
      exactly when it was among the direct entries. */
  lemma LastNameNotAdded(notebooks: seq<Entry>, names: seq<string>)
    requires names != []
    requires forall i, j :: 0 <= i < j < |names| ==> names[i] != names[j]
    requires var init := names[..|names| - 1];
      Merge(notebooks, init) == notebooks + Map(SearchEntry, Filter(init, n => !HasName(notebooks, n)))
    ensures HasName(Merge(notebooks, names[..|names| - 1]), names[|names| - 1]) <==> HasName(notebooks, names[|names| - 1])
  {
    var isNew := (n: string) => !HasName(notebooks, n);
    var k := |names| - 1;
    var init, name := names[..k], names[k];
    var prev := Merge(notebooks, init);
    var kept := Filter(init, isNew);
    assert prev == notebooks + Map(SearchEntry, kept);
    forall i | |notebooks| <= i < |prev| ensures prev[i].name != name {
      var f := kept[i - |notebooks|];
      assert f in kept;
      assert prev[i].name == f;
      var j :| 0 <= j < k && init[j] == f;
      assert names[j] == f;
    }
    if !HasName(prev, name) {
      forall i | 0 <= i < |notebooks| ensures notebooks[i].name != name {
        assert prev[i] == notebooks[i];
      }
    } else {
      var i :| 0 <= i < |prev| && prev[i].name == name;
      assert prev[i] == notebooks[i];
    }
  }

  /** The direct records come first and unchanged; every search record carries a name that
      no direct record carries, and every collected name that no direct record carries gets
      exactly one record; the search records follow sorted name order. */
  lemma DirectEntriesWin(notebooks: seq<Entry>, names: set<string>)
    ensures var r := Merge(notebooks, SortedSet(names));
      |notebooks| <= |r| && r[..|notebooks|] == notebooks
      && (forall i :: |notebooks| <= i < |r| ==>
            r[i] == SearchEntry(r[i].name) && r[i].name in names && !HasName(notebooks, r[i].name))
      && (forall n :: n in names && !HasName(notebooks, n) ==> SearchEntry(n) in r[|notebooks|..])
      && (forall i, j :: |notebooks| <= i < j < |r| ==> Below(r[i].name, r[j].name))
  {
    var sorted := SortedSet(names);
    SortedSetSpec(names);
    forall i, j | 0 <= i < j < |sorted| ensures sorted[i] != sorted[j] {
      BelowIrreflexive(sorted[i]);
    }
    MergeCharacterised(notebooks, sorted);
    var isNew := (n: string) => !HasName(notebooks, n);
    var kept := Filter(sorted, isNew);
    var r := Merge(notebooks, sorted);
    assert r[|notebooks|..] == Map(SearchEntry, kept);
    forall n | n in names && !HasName(notebooks, n) ensures SearchEntry(n) in r[|notebooks|..] {
      FilterComplete(sorted, isNew, n);
      var k :| 0 <= k < |kept| && kept[k] == n;
      assert r[|notebooks|..][k] == SearchEntry(n);
    }
    FilterIsSubsequence(sorted, isNew);
    SubsequenceKeepsOrder(kept, sorted);
    forall i, j | |notebooks| <= i < j < |r| ensures Below(r[i].name, r[j].name) {
      assert r[i].name == kept[i - |notebooks|] && r[j].name == kept[j - |notebooks|];
    }
    forall i | |notebooks| <= i < |r|
      ensures r[i] == SearchEntry(r[i].name) && r[i].name in names && !HasName(notebooks, r[i].name)
    {
      assert kept[i - |notebooks|] in kept;
    }
  }

  /** A subsequence of a strictly sorted list is strictly sorted. */
  lemma {:induction false} SubsequenceKeepsOrder(a: seq<string>, b: seq<string>)
    requires IsSubsequence(a, b) && StrictlySorted(b)
    ensures StrictlySorted(a)
    decreases |b|
  {
    if a != [] {
      assert StrictlySorted(b[1..]) by {
        forall i, j | 0 <= i < j < |b[1..]| ensures Below(b[1..][i], b[1..][j]) {
          assert b[1..][i] == b[i + 1] && b[1..][j] == b[j + 1];
        }
      }
      if a[0] == b[0] && IsSubsequence(a[1..], b[1..]) {
        SubsequenceKeepsOrder(a[1..], b[1..]);
        SubsequenceMembers(a[1..], b[1..]);
        forall i, j | 0 <= i < j < |a| ensures Below(a[i], a[j]) {
          if i == 0 {
            assert a[j] == a[1..][j - 1];
            assert a[j] in a[1..];
            var m :| 0 <= m < |b[1..]| && b[1..][m] == a[j];
            assert b[m + 1] == a[j];
          } else {
            assert a[i] == a[1..][i - 1] && a[j] == a[1..][j - 1];
          }
        }
      } else {
        SubsequenceKeepsOrder(a, b[1..]);
      }
    }
  }

  lemma {:induction false} SubsequenceMembers<T>(a: seq<T>, b: seq<T>)
    requires IsSubsequence(a, b)
    ensures forall x :: x in a ==> exists m :: 0 <= m < |b| && b[m] == x
    decreases |b|
  {
    if a != [] {
      if a[0] == b[0] && IsSubsequence(a[1..], b[1..]) {
        SubsequenceMembers(a[1..], b[1..]);
        forall x | x in a ensures exists m :: 0 <= m < |b| && b[m] == x {
          if x == a[0] {
            assert b[0] == x;
          } else {
            assert x in a[1..];
            var m :| 0 <= m < |b[1..]| && b[1..][m] == x;
            assert b[m + 1] == x;
          }
        }
      } else {
        SubsequenceMembers(a, b[1..]);
        forall x | x in a ensures exists m :: 0 <= m < |b| && b[m] == x {
          var m :| 0 <= m < |b[1..]| && b[1..][m] == x;
          assert b[m + 1] == x;
        }
      }
    }
  }

  /** A failed search leaves the direct records as they are; a failed listing leaves the
      search records, which are then one per collected name in sorted order. */
  lemma FailureIsolated(direct: Reply, search: Reply)
    ensures search.Fail? ==> AllNotebooks(direct, search) == (if direct.Ok? then DirectEntries(Items(direct.body)) else [])
    ensures direct.Fail? && search.Ok? ==>
      AllNotebooks(direct, search) == Map(SearchEntry, SortedSet(SearchNames(search.body)))
  {
    if direct.Fail? && search.Ok? {
      var sorted := SortedSet(SearchNames(search.body));
      SortedSetSpec(SearchNames(search.body));
      forall i, j | 0 <= i < j < |sorted| ensures sorted[i] != sorted[j] {
        BelowIrreflexive(sorted[i]);
      }
      MergeCharacterised([], sorted);
      var isNew := (n: string) => !HasName([], n);
      FilterAll(sorted, isNew);
    }
  }

  lemma {:induction false} FilterAll<T>(s: seq<T>, p: T -> bool)
    requires forall x :: p(x)
    ensures Filter(s, p) == s
  {
    if s != [] {
      FilterAll(s[1..], p);
    }
  }
}
