/**
 * The editor side of `SubclassOf<T>`: the per-base-type cache of subclass
 * candidates, its invalidation on script reload, and the selection
 * bookkeeping of the property drawer's `OnGUI`.
 *
 * The drawer's static dictionary is an explicit `SubclassCacheTable` object
 * passed to `OnGUI`; the popup widget is a function parameter that, given the
 * current index and the labels, returns the index the popup reports.
 */
module Editor {
  import opened Wrappers
  import opened Reflection

  // ---------------------------------------------------------------------------
  // The candidate scan

  /** The types an assembly contributes to the scan: none when it is dynamic. */
  function Exports(a: Assembly): seq<Type> {
    if a.isDynamic then [] else a.exportedTypes
  }

  /** `SelectMany(GetExportedTypes)` over the non-dynamic assemblies, in assembly order. */
  function ExportedTypes(assemblies: seq<Assembly>): seq<Type> {
    if assemblies == [] then [] else Exports(assemblies[0]) + ExportedTypes(assemblies[1..])
  }

  /** The filter: a strict subclass of the base, not the base itself, and not abstract. */
  predicate IsCandidate(u: Universe, baseType: Type, t: Type) {
    u.IsSubclassOf(t, baseType) && t != baseType && !u.IsAbstract(t)
  }

  /** `Where(IsCandidate)`, keeping the order of `ts`. */
  function FilterCandidates(u: Universe, baseType: Type, ts: seq<Type>): seq<Type> {
    if ts == [] then []
    else (if IsCandidate(u, baseType, ts[0]) then [ts[0]] else []) + FilterCandidates(u, baseType, ts[1..])
  }

  /** The candidates a scan of `assemblies` yields. */
  function CandidatesIn(u: Universe, baseType: Type, assemblies: seq<Assembly>): seq<Type> {
    FilterCandidates(u, baseType, ExportedTypes(assemblies))
  }

  /**
   * The result of a full scan of the universe for `baseType`: exactly the
   * candidates exported by some non-dynamic assembly (`CandidatesInOrder`
   * gives their order).
   */
  function Candidates(u: Universe, baseType: Type): (r: seq<Type>)
    ensures forall t :: t in r <==>
              && (exists i :: 0 <= i < |u.assemblies| && !u.assemblies[i].isDynamic && t in u.assemblies[i].exportedTypes)
              && IsCandidate(u, baseType, t)
  {
    CandidatesExactly(u, baseType, u.assemblies);
    CandidatesIn(u, baseType, u.assemblies)
  }

  lemma {:induction false} FilterCandidatesMember(u: Universe, baseType: Type, ts: seq<Type>, t: Type)
    ensures t in FilterCandidates(u, baseType, ts) <==> t in ts && IsCandidate(u, baseType, t)
  {
    if ts != [] {
      FilterCandidatesMember(u, baseType, ts[1..], t);
      assert ts == [ts[0]] + ts[1..];
    }
  }

  lemma {:induction false} FilterCandidatesAppend(u: Universe, baseType: Type, xs: seq<Type>, ys: seq<Type>)
    ensures FilterCandidates(u, baseType, xs + ys)
            == FilterCandidates(u, baseType, xs) + FilterCandidates(u, baseType, ys)
  {
    if xs == [] {
      assert xs + ys == ys;
    } else {
      assert (xs + ys)[1..] == xs[1..] + ys;
      FilterCandidatesAppend(u, baseType, xs[1..], ys);
    }
  }

  lemma {:induction false} ExportedTypesMember(assemblies: seq<Assembly>, t: Type)
    ensures t in ExportedTypes(assemblies) <==>
            exists i :: 0 <= i < |assemblies| && !assemblies[i].isDynamic && t in assemblies[i].exportedTypes
  {
    if assemblies != [] {
      ExportedTypesMember(assemblies[1..], t);
      if t in ExportedTypes(assemblies[1..]) {
        var i :| 0 <= i < |assemblies[1..]| && !assemblies[1..][i].isDynamic && t in assemblies[1..][i].exportedTypes;
        assert assemblies[i + 1] == assemblies[1..][i];
      }
      if exists i :: 0 <= i < |assemblies| && !assemblies[i].isDynamic && t in assemblies[i].exportedTypes {
        var i :| 0 <= i < |assemblies| && !assemblies[i].isDynamic && t in assemblies[i].exportedTypes;
        if i > 0 {
          assert assemblies[1..][i - 1] == assemblies[i];
        }
      }
    }
  }

  lemma {:induction false} ExportedTypesAppend(xs: seq<Assembly>, ys: seq<Assembly>)
    ensures ExportedTypes(xs + ys) == ExportedTypes(xs) + ExportedTypes(ys)
  {
    if xs == [] {
      assert xs + ys == ys;
    } else {
      assert (xs + ys)[1..] == xs[1..] + ys;
      ExportedTypesAppend(xs[1..], ys);
    }
  }

  /**
   * The scan is complete and sound: a type is a candidate exactly when a
   * non-dynamic assembly exports it and it is a strict, non-abstract
   * subclass of the base other than the base itself.
   */
  lemma CandidatesExactly(u: Universe, baseType: Type, assemblies: seq<Assembly>)
    ensures forall t :: t in CandidatesIn(u, baseType, assemblies) <==>
              && (exists i :: 0 <= i < |assemblies| && !assemblies[i].isDynamic && t in assemblies[i].exportedTypes)
              && IsCandidate(u, baseType, t)
  {
    forall t
      ensures t in CandidatesIn(u, baseType, assemblies) <==>
                && (exists i :: 0 <= i < |assemblies| && !assemblies[i].isDynamic && t in assemblies[i].exportedTypes)
                && IsCandidate(u, baseType, t)
    {
      FilterCandidatesMember(u, baseType, ExportedTypes(assemblies), t);
      ExportedTypesMember(assemblies, t);
    }
  }

  /**
   * The scan's order: assembly order first, then the order of the exported
   * types within one assembly.
   */
  lemma CandidatesInOrder(u: Universe, baseType: Type, xs: seq<Assembly>, ys: seq<Assembly>, a: Assembly)
    ensures CandidatesIn(u, baseType, xs + ys) == CandidatesIn(u, baseType, xs) + CandidatesIn(u, baseType, ys)
    ensures CandidatesIn(u, baseType, [a]) == if a.isDynamic then [] else FilterCandidates(u, baseType, a.exportedTypes)
  {
    ExportedTypesAppend(xs, ys);
    FilterCandidatesAppend(u, baseType, ExportedTypes(xs), ExportedTypes(ys));
    assert ExportedTypes([a]) == Exports(a) + ExportedTypes([]);
    assert Exports(a) + [] == Exports(a);
  }

  /** In a valid universe the `t != baseType` test is implied by `IsSubclassOf`. */
  lemma BaseExclusionImplied(u: Universe, baseType: Type, t: Type)
    requires u.Valid()
    ensures IsCandidate(u, baseType, t) <==> u.IsSubclassOf(t, baseType) && !u.IsAbstract(t)
  {
  }

  // ---------------------------------------------------------------------------
  // The cache, as a value

  /** What one `SubclassCache` holds: the last scan's result and the `Dirty` flag. */
  datatype Entry = Entry(subclassTypes: seq<Type>, dirty: bool)

  /**
   * `GetSubclassTypes` on the cache contents: the new contents and the list
   * returned. A present, clean entry is returned as is; otherwise the base
   * type is scanned and the result stored, creating the entry (not dirty) if
   * it was missing. `Dirty` is never reset.
   */
  function Query(cache: map<Type, Entry>, u: Universe, baseType: Type): (r: (map<Type, Entry>, seq<Type>))
    ensures r.0.Keys == cache.Keys + {baseType}
    ensures r.0[baseType].subclassTypes == r.1
    ensures forall b :: b in cache && b != baseType ==> r.0[b] == cache[b]
    ensures baseType in cache && !cache[baseType].dirty ==> r == (cache, cache[baseType].subclassTypes)
    ensures !(baseType in cache && !cache[baseType].dirty) ==> r.1 == Candidates(u, baseType)
    ensures r.0[baseType].dirty <==> baseType in cache && cache[baseType].dirty
  {
    if baseType in cache && !cache[baseType].dirty then (cache, cache[baseType].subclassTypes)
    else
      var found := Candidates(u, baseType);
      var dirty := baseType in cache && cache[baseType].dirty;
      (cache[baseType := Entry(found, dirty)], found)
  }

  /** `OnScriptReload` on the cache contents: every entry marked dirty, lists and keys kept. */
  function MarkAllDirty(cache: map<Type, Entry>): (r: map<Type, Entry>)
    ensures r.Keys == cache.Keys
    ensures forall b :: b in r ==> r[b] == Entry(cache[b].subclassTypes, true)
  {
    map b | b in cache :: Entry(cache[b].subclassTypes, true)
  }

  /** One event the cache sees: a query, or a script reload. */
  datatype CacheEvent = QueryEvent(u: Universe, baseType: Type) | ReloadEvent

  function Apply(cache: map<Type, Entry>, e: CacheEvent): map<Type, Entry> {
    match e
    case QueryEvent(u, b) => Query(cache, u, b).0
    case ReloadEvent => MarkAllDirty(cache)
  }

  /** The cache contents after a sequence of events. */
  function Run(cache: map<Type, Entry>, events: seq<CacheEvent>): map<Type, Entry>
    decreases |events|
  {
    if events == [] then cache else Run(Apply(cache, events[0]), events[1..])
  }

  /** Entries are never removed, and a dirty entry stays dirty, whatever happens next. */
  lemma {:induction false} DirtyStaysDirty(cache: map<Type, Entry>, events: seq<CacheEvent>, b: Type)
    requires b in cache
    ensures b in Run(cache, events)
    ensures cache[b].dirty ==> Run(cache, events)[b].dirty
    decreases |events|
  {
    if events != [] {
      DirtyStaysDirty(Apply(cache, events[0]), events[1..], b);
    }
  }

  /**
   * Once an entry has been marked dirty, every later query for it rescans the
   * universe of that moment.
   */
  lemma DirtyEntryAlwaysRescans(cache: map<Type, Entry>, events: seq<CacheEvent>, u: Universe, b: Type)
    requires b in cache && cache[b].dirty
    ensures Query(Run(cache, events), u, b).1 == Candidates(u, b)
  {
    DirtyStaysDirty(cache, events, b);
  }

  /** After a reload, the next query for any cached base type reflects the current universe. */
  lemma ReloadThenQueryRescans(cache: map<Type, Entry>, u: Universe, b: Type)
    requires b in cache
    ensures Query(MarkAllDirty(cache), u, b).1 == Candidates(u, b)
  {
  }

  /** Before any reload, a clean entry is returned unchanged even if the universe has changed. */
  lemma CleanEntryIgnoresUniverse(cache: map<Type, Entry>, u: Universe, later: Universe, b: Type)
    requires b in cache && !cache[b].dirty
    ensures Query(cache, later, b) == Query(cache, u, b)
  {
  }

  // ---------------------------------------------------------------------------
  // The cache, as objects

  /** `SubclassOfDrawer.SubclassCache`. */
  class SubclassCache {
    const baseType: Type
    var subclassTypes: seq<Type>
    var dirty: bool

    constructor (baseType: Type)
      ensures this.baseType == baseType && subclassTypes == [] && !dirty
    {
      this.baseType := baseType;
      subclassTypes := [];
      dirty := false;
    }
  }

  /** The drawer's static `_cachedSubclassTypes` dictionary. */
  class SubclassCacheTable {
    var entries: map<Type, SubclassCache>

    /** Each entry is keyed by its own base type, and no two keys share an entry. */
    ghost predicate Valid()
      reads this
    {
      && (forall b :: b in entries ==> entries[b].baseType == b)
      && (forall b, c :: b in entries && c in entries && b != c ==> entries[b] != entries[c])
    }

    /** The cache contents as a value. */
    ghost function View(): map<Type, Entry>
      reads this, entries.Values
    {
      map b | b in entries :: Entry(entries[b].subclassTypes, entries[b].dirty)
    }

    constructor ()
      ensures Valid() && entries == map[]
    {
      entries := map[];
    }

    method GetSubclassTypes(u: Universe, baseType: Type) returns (r: seq<Type>)
      requires Valid()
      modifies this, entries.Values
      ensures Valid()
      ensures View() == Query(old(View()), u, baseType).0
      ensures r == Query(old(View()), u, baseType).1
      ensures forall b :: b in old(entries) ==> b in entries && entries[b] == old(entries[b])
      ensures forall b :: b in entries && b !in old(entries) ==> fresh(entries[b])
    {
      ghost var before := View();
      var cache: SubclassCache;
      if baseType in entries {
        cache := entries[baseType];
        if !cache.dirty {
          return cache.subclassTypes;
        }
      } else {
        cache := new SubclassCache(baseType);
        entries := entries[baseType := cache];
      }
      cache.subclassTypes := Candidates(u, baseType);
      r := cache.subclassTypes;
      ghost var after := Query(before, u, baseType).0;
      forall b | b in entries
        ensures b in after && View()[b] == after[b]
      {
        if b != baseType {
          assert entries[b] != cache;
        }
      }
    }

    method OnScriptReload()
      requires Valid()
      modifies entries.Values
      ensures Valid() && entries == old(entries)
      ensures View() == MarkAllDirty(old(View()))
    {
      var pending := entries.Keys;
      while pending != {}
        invariant pending <= entries.Keys
        invariant forall b :: b in entries ==> entries[b].subclassTypes == old(entries[b].subclassTypes)
        invariant forall b :: b in pending ==> entries[b].dirty == old(entries[b].dirty)
        invariant forall b :: b in entries && b !in pending ==> entries[b].dirty
        decreases pending
      {
        var b :| b in pending;
        entries[b].dirty := true;
        pending := pending - {b};
      }
    }
  }

  // ---------------------------------------------------------------------------
  // Selection bookkeeping in OnGUI

  /** The popup labels: "None", then each candidate's `Name`. */
  function PopupLabels(ts: seq<Type>): (labels: seq<string>)
    ensures |labels| == |ts| + 1 && labels[0] == "None"
    ensures forall i :: 0 <= i < |ts| ==> labels[i + 1] == ts[i].name
  {
    ["None"] + seq(|ts|, i requires 0 <= i < |ts| => ts[i].name)
  }

  /** The position of the first candidate whose qualified name is `name`, or -1. */
  function FirstMatch(ts: seq<Type>, name: string): (r: int)
    ensures -1 <= r < |ts|
    ensures r == -1 <==> forall j :: 0 <= j < |ts| ==> ts[j].qualifiedName != name
    ensures r >= 0 ==> ts[r].qualifiedName == name && forall j :: 0 <= j < r ==> ts[j].qualifiedName != name
  {
    if ts == [] then -1
    else if ts[0].qualifiedName == name then 0
    else
      var k := FirstMatch(ts[1..], name);
      if k == -1 then -1 else k + 1
  }

  /** The drawer's `_selectedIndex` (position in the popup) and `_selectedClass` (position among the candidates). */
  datatype Selection = Selection(selectedIndex: int, selectedClass: int)

  /**
   * The re-sync before the popup: with a non-blank stored name and no
   * selected candidate, or one of another name, the first candidate carrying
   * the stored name is selected; when none carries it the selection stays.
   * Indexing the candidates with a stale `_selectedClass` throws.
   */
  function Resync(ts: seq<Type>, stored: string, sel: Selection): (r: Result<Selection, Exception>)
    ensures IsNullOrWhiteSpace(stored) ==> r == Success(sel)
    ensures !IsNullOrWhiteSpace(stored) && 0 <= sel.selectedClass < |ts| && ts[sel.selectedClass].qualifiedName == stored ==>
              r == Success(sel)
    ensures r.Failure? <==>
              !IsNullOrWhiteSpace(stored) && sel.selectedClass != -1 && !(0 <= sel.selectedClass < |ts|)
    ensures r.Failure? ==> r.error == IndexOutOfRangeException
    ensures r.Success? && r.value != sel ==>
              && 0 <= r.value.selectedClass < |ts|
              && r.value.selectedIndex == r.value.selectedClass + 1
              && r.value.selectedClass == FirstMatch(ts, stored)
    ensures r.Success? && !IsNullOrWhiteSpace(stored) ==>
              (exists j :: 0 <= j < |ts| && ts[j].qualifiedName == stored) ==>
              0 <= r.value.selectedClass < |ts| && ts[r.value.selectedClass].qualifiedName == stored
  {
    if IsNullOrWhiteSpace(stored) then Success(sel)
    else if sel.selectedClass != -1 && !(0 <= sel.selectedClass < |ts|) then Failure(IndexOutOfRangeException)
    else if sel.selectedClass == -1 || stored != ts[sel.selectedClass].qualifiedName then
      var i := FirstMatch(ts, stored);
      Success(if i == -1 then sel else Selection(i + 1, i))
    else Success(sel)
  }

  /** The name written back for popup index `index`: "" for "None", else the candidate's qualified name. */
  function WriteBack(ts: seq<Type>, index: int): (r: Result<string, Exception>)
    ensures index == 0 ==> r == Success("")
    ensures 1 <= index <= |ts| ==> r == Success(ts[index - 1].qualifiedName)
    ensures r.Failure? <==> index != 0 && !(1 <= index <= |ts|)
  {
    if index == 0 then Success("")
    else if 0 <= index - 1 < |ts| then Success(ts[index - 1].qualifiedName)
    else Failure(IndexOutOfRangeException)
  }

  /** A stored name that no candidate carries leaves the previous selection in place (not "None"). */
  lemma UnmatchedNameKeepsSelection(ts: seq<Type>, stored: string, sel: Selection)
    requires !IsNullOrWhiteSpace(stored)
    requires sel.selectedClass == -1 || 0 <= sel.selectedClass < |ts|
    requires forall j :: 0 <= j < |ts| ==> ts[j].qualifiedName != stored
    ensures Resync(ts, stored, sel) == Success(sel)
  {
  }

  /**
   * Write-back and re-sync agree: when candidate names are distinct, the name
   * written for index k+1 is found again at index k+1 on the next render,
   * even by a drawer that has lost its selection.
   */
  lemma WriteBackThenResync(ts: seq<Type>, k: int, sel: Selection)
    requires 0 <= k < |ts|
    requires forall i, j :: 0 <= i < j < |ts| ==> ts[i].qualifiedName != ts[j].qualifiedName
    requires !IsNullOrWhiteSpace(ts[k].qualifiedName)
    requires sel.selectedClass == sel.selectedIndex - 1
    requires -1 <= sel.selectedClass < |ts|
    ensures WriteBack(ts, k + 1) == Success(ts[k].qualifiedName)
    ensures Resync(ts, ts[k].qualifiedName, sel) == Success(Selection(k + 1, k))
  {
  }

  /** `SubclassOfDrawer`: the instance fields `_selectedIndex` and `_selectedClass`. */
  class SubclassOfDrawer {
    var selectedIndex: int
    var selectedClass: int

    /** `_selectedClass` is always one less than `_selectedIndex`. */
    ghost predicate Valid()
      reads this
    {
      selectedClass == selectedIndex - 1
    }

    constructor ()
      ensures selectedIndex == 0 && selectedClass == -1 && Valid()
    {
      selectedIndex := 0;
      selectedClass := -1;
    }

    /** The label loop of `OnGUI`. */
    static method BuildLabels(ts: seq<Type>) returns (labels: seq<string>)
      ensures labels == PopupLabels(ts)
    {
      labels := ["None"];
      for i := 0 to |ts|
        invariant |labels| == i + 1 && labels[0] == "None"
        invariant forall j :: 0 <= j < i ==> labels[j + 1] == ts[j].name
      {
        labels := labels + [ts[i].name];
      }
    }

    /** The search loop of `OnGUI`. */
    static method FindCandidate(ts: seq<Type>, name: string) returns (found: int)
      ensures found == FirstMatch(ts, name)
    {
      found := -1;
      var i := 0;
      while i < |ts|
        invariant 0 <= i <= |ts|
        invariant forall j :: 0 <= j < i ==> ts[j].qualifiedName != name
      {
        if ts[i].qualifiedName == name {
          found := i;
          return;
        }
        i := i + 1;
      }
    }

    /** The re-sync step of `OnGUI`, on the drawer's fields. */
    method ResyncSelection(ts: seq<Type>, stored: string) returns (r: Result<(), Exception>)
      modifies this
      ensures match Resync(ts, stored, Selection(old(selectedIndex), old(selectedClass)))
        case Failure(e) =>
          r == Failure(e) && selectedIndex == old(selectedIndex) && selectedClass == old(selectedClass)
        case Success(sel) =>
          r.Success? && selectedIndex == sel.selectedIndex && selectedClass == sel.selectedClass
    {
      if !IsNullOrWhiteSpace(stored) {
        if selectedClass != -1 && !(0 <= selectedClass < |ts|) {
          return Failure(IndexOutOfRangeException);
        }
        if selectedClass == -1 || stored != ts[selectedClass].qualifiedName {
          var i := FindCandidate(ts, stored);
          if i != -1 {
            selectedClass := i;
            selectedIndex := selectedClass + 1;
          }
        }
      }
      r := Success(());
    }

    /**
     * The bookkeeping of `OnGUI`: resolve the base type, query the cache,
     * build the labels, re-sync the selection from `stored` (the
     * `_subclassTypeName` string), ask the popup, and return the string
     * written back to `_subclassTypeName`.
     */
    method OnGUI(u: Universe, cache: SubclassCacheTable, classTypeName: string, stored: string,
                 popup: (int, seq<string>) -> int)
      returns (r: Result<string, Exception>)
      requires cache.Valid()
      modifies this, cache, cache.entries.Values
      ensures cache.Valid()
      ensures old(Valid()) ==> Valid()
      ensures u.GetType(classTypeName).None? ==>
        && r == Failure(ArgumentNullException)
        && selectedIndex == old(selectedIndex) && selectedClass == old(selectedClass)
        && cache.entries == old(cache.entries) && cache.View() == old(cache.View())
      ensures u.GetType(classTypeName).Some? ==>
        var q := Query(old(cache.View()), u, u.GetType(classTypeName).value);
        && cache.View() == q.0
        && match Resync(q.1, stored, Selection(old(selectedIndex), old(selectedClass)))
           case Failure(e) =>
             r == Failure(e) && selectedIndex == old(selectedIndex) && selectedClass == old(selectedClass)
           case Success(sel) =>
             && selectedIndex == popup(sel.selectedIndex, PopupLabels(q.1))
             && selectedClass == selectedIndex - 1
             && r == WriteBack(q.1, selectedIndex)
    {
      var baseType := u.GetType(classTypeName);
      if baseType.None? {
        // `GetSubclassTypes(null)` throws from the dictionary lookup.
        return Failure(ArgumentNullException);
      }
      ghost var q := Query(cache.View(), u, baseType.value);
      var candidates := cache.GetSubclassTypes(u, baseType.value);
      ghost var table := cache.View();
      assert table == q.0 && candidates == q.1;
      var labels := BuildLabels(candidates);
      var resynced := ResyncSelection(candidates, stored);
      assert cache.View() == table;
      if resynced.Failure? {
        return Failure(resynced.error);
      }
      selectedIndex := popup(selectedIndex, labels);
      selectedClass := selectedIndex - 1;
      assert cache.View() == table;

      if selectedIndex == 0 {
        r := Success("");
      } else if 0 <= selectedIndex - 1 < |candidates| {
        r := Success(candidates[selectedIndex - 1].qualifiedName);
      } else {
        r := Failure(IndexOutOfRangeException);
      }
    }
  }
}
