# SubclassOf<T> and its property drawer, modelled in Dafny

This project models three pieces of the Unity extension package:

- `SubclassOf<T>` (`Runtime/Types/SubclassOf.cs`): a serializable reference
  to a strict subclass of a declared base type `T`. It persists two strings
  (the assembly-qualified names of `T` and of the chosen subclass) and keeps
  two lazily resolved caches. Direct assignment is strict and throws on a
  type that is not a strict subclass. The validation run by both
  serialization hooks is lenient: it clears a bad selection instead of
  throwing.
- `SubclassOfDrawer` (`Editor/SubclassOfDrawer.cs`): the editor's cache of
  subclass candidates per base type, with a `Dirty` flag set on script
  reload. It also covers the selection bookkeeping of `OnGUI`: the
  "None + candidates" labels, re-syncing the selected index from the stored
  name, and writing the chosen name back.
- `Easing.GetInverseEasingMode` (`Runtime/Animation/Easing.cs`): swaps each
  In curve with its Out partner.

Reflection is replaced by an abstract type universe (`Reflection.Universe`).
It holds a name resolver standing in for `Type.GetType`, the `IsSubclassOf`
relation, the set of abstract types, and the loaded assemblies, each flagged
dynamic or not, with their exported types in order. A type handle carries its
`Name` and `AssemblyQualifiedName`. The universe is a parameter of every
operation, because assemblies can be reloaded between calls.

Files:

- `Wrappers.dfy`: `Option` (null) and `Result` (thrown exceptions).
- `Reflection.dfy`: the type universe, the exceptions, and the
  `IsNullOrEmpty`/`IsNullOrWhiteSpace` string tests.
- `SubclassOf.dfy` (module `Types`): each operation is first written as a
  function from the old field values to the new fields and the result. The
  class `SubclassOf` then implements each operation imperatively, like the
  source, with `modifies this`, and proves it follows that function. The
  lemmas state what the operations promise.
- `SubclassOfDrawer.dfy` (module `Editor`): the candidate scan as functions
  over sequences. The cache is the `SubclassCache` and `SubclassCacheTable`
  classes, specified by the value-level `Query` and `MarkAllDirty`. The drawer
  class holds `_selectedIndex`/`_selectedClass`. Its `OnGUI` is specified by
  `Resync`, `PopupLabels` and `WriteBack`.
- `Easing.dfy` (module `Animation`): `EasingMode` and its inverse.

The methods of `SubclassOf` do not require an object invariant. Any combination of field
values can reach `OnAfterDeserialize`, because Unity writes the persisted
strings before calling it. Their contracts therefore cover every starting
state.

Where the code differs from what one might expect, the model follows the
code:

- `Equals(Type)` and `Equals(SubclassOf<T>)` throw `NullReferenceException`
  when nothing is selected. They dereference `SubclassType`, so "no selection"
  is not simply unequal (`Types.EqualsTypeStep`, `Types.CompareTypes`).
- A failed re-resolution in the `SubclassType` getter clears the stored name
  but returns the previously cached type. The cache is cleared only on the
  next read (`Types.SubclassTypeGet`).
- The getter does not re-resolve when its cache already matches the stored
  name, so a cached type is kept even if its assembly has gone.
- When the stored name no longer resolves but an older type is cached, the
  getter returns that older type and `Validate` writes its name back. The
  selection reverts to the older type instead of being cleared
  (`Types.ValidateRevertsToCachedType`).
- `CreateInstance` reads the getter twice. When the first read returns a
  stale cache after a failed resolution, the second read clears it, and
  `Activator.CreateInstance(null)` throws `ArgumentNullException`
  (`Types.CreateInstanceStep`).
- Direct assignment accepts an abstract strict subclass: the setter tests
  only `IsSubclassOf`, and only the drawer's scan excludes abstract types
  (`Types.SubclassTypeSet`).
- `Dirty` is never reset. Once an entry has been marked, every query for it
  rescans (`Editor.DirtyEntryAlwaysRescans`).
- A stored name that matches no candidate leaves the previous index selected.
  It does not fall back to "None" (`Editor.UnmatchedNameKeepsSelection`).
- A module whose exported types cannot be listed is not skipped. The LINQ
  scan has no guard, so its exception escapes `GetSubclassTypes`. The entry
  was already inserted before the scan, so it stays clean with a null list.
  Later queries then return null, and `OnGUI` throws
  `NullReferenceException` until a reload marks the entry dirty. The model
  treats listing as total and does not capture this stuck entry.
- Three paths throw where nothing catches the exception, and the model
  reports each as an exception:
  - `OnGUI` with a base-type name that does not resolve calls
    `GetSubclassTypes(null)`, which throws `ArgumentNullException`.
  - A `_selectedClass` left out of range by a shrunken candidate list throws
    `IndexOutOfRangeException` during re-sync.
  - A popup index out of range throws `IndexOutOfRangeException` during
    write-back.

## Model

| member | source | states |
|---|---|---|
| `Types.ClassTypeGet` | Packages/com.lukeandrews.unity-extension/Runtime/Types/SubclassOf.cs:8-18 | Only the `_classType` cache changes. Once cached, the base type is returned without resolving. The getter throws `TypeLoadException` exactly when nothing is cached and `_classTypeName` does not resolve. An uncached successful read returns, and caches, the type `_classTypeName` resolves to. |
| `Types.SubclassOf.GetClassType` | Packages/com.lukeandrews.unity-extension/Runtime/Types/SubclassOf.cs:8-18 | The getter's effect on the fields and its result are those of `ClassTypeGet`. |
| `Types.SubclassTypeGet` | Packages/com.lukeandrews.unity-extension/Runtime/Types/SubclassOf.cs:21-45 | The getter returns what it leaves cached. A cache matching the stored name is returned untouched and nothing is resolved. An empty name reads as null. A resolution failure is logged, never thrown: it clears the name and returns the previous cache. A successful resolution is cached. |
| `Types.SubclassOf.GetSubclassType` | Packages/com.lukeandrews.unity-extension/Runtime/Types/SubclassOf.cs:21-45 | The getter's new fields, result and logged exception are those of `SubclassTypeGet`. |
| `Types.SubclassTypeSet` | Packages/com.lukeandrews.unity-extension/Runtime/Types/SubclassOf.cs:47-62 | Null clears both name and cache. A strict subclass of `ClassType` is stored by its qualified name and cached. Any other type throws `ArgumentException`, leaving `_subclassTypeName` and `_subclassType` unchanged. |
| `Types.SubclassOf.SetSubclassType` | Packages/com.lukeandrews.unity-extension/Runtime/Types/SubclassOf.cs:47-62 | The setter's effect and exception are those of `SubclassTypeSet`. |
| `Types.AssignedSubclassReadsBack` | Packages/com.lukeandrews.unity-extension/Runtime/Types/SubclassOf.cs:25-44 | After a successful assignment of S, a read returns S without re-resolving, in any later universe. |
| `Types.ClearedReadsNone` | Packages/com.lukeandrews.unity-extension/Runtime/Types/SubclassOf.cs:39-61 | After assigning null, a read returns null and logs nothing. |
| `Types.SubclassOf.constructor` | Packages/com.lukeandrews.unity-extension/Runtime/Types/SubclassOf.cs:74-77 | The parameterless constructor sets `ClassTypeName` to T's qualified name and leaves the subclass name and both caches null. |
| `Types.SubclassOf.FromType` | Packages/com.lukeandrews.unity-extension/Runtime/Types/SubclassOf.cs:79-83 | The typed constructor is the parameterless one followed by the setter. It yields a fresh object in the setter's resulting state, or the setter's exception. |
| `Types.ValidateStep` | Packages/com.lukeandrews.unity-extension/Runtime/Types/SubclassOf.cs:134-147 | After `Validate`, `ClassTypeName` is T's qualified name. Either nothing is selected, or the cached subclass is named by the stored name and is a strict subclass of the cached base type. The only exception possible is `TypeLoadException` for T's own name. |
| `Types.SubclassOf.Validate` | Packages/com.lukeandrews.unity-extension/Runtime/Types/SubclassOf.cs:134-147 | `Validate`'s effect and outcome are those of `ValidateStep`. |
| `Types.ValidateNeverThrows` | Packages/com.lukeandrews.unity-extension/Runtime/Types/SubclassOf.cs:134-147 | When T's name resolves, no exception escapes `Validate`. |
| `Types.ValidateFixesCoherent` | Packages/com.lukeandrews.unity-extension/Runtime/Types/SubclassOf.cs:134-147 | A coherent state that already carries T's name is left unchanged by `Validate`. |
| `Types.ValidateIdempotent` | Packages/com.lukeandrews.unity-extension/Runtime/Types/SubclassOf.cs:134-147 | When the first run succeeds (T's name resolves), running `Validate` again gives the same state and outcome. |
| `Types.ValidateOutcome` | Packages/com.lukeandrews.unity-extension/Runtime/Types/SubclassOf.cs:134-147 | With T loaded, the selection read by the getter survives exactly when it is a strict subclass of T. Otherwise it is cleared to null rather than thrown. |
| `Types.ValidatedSelectionIsNotBase` | Packages/com.lukeandrews.unity-extension/Runtime/Types/SubclassOf.cs:138-146 | In a universe where `IsSubclassOf` is strict, a selection that survives validation is never the base type itself. |
| `Types.ValidateClearsUnresolvable` | Packages/com.lukeandrews.unity-extension/Runtime/Types/SubclassOf.cs:27-37 | A stored name that no longer resolves (its type is gone from a still-loaded assembly), with an empty cache, is cleared by `Validate`, and nothing is thrown. |
| `Types.ValidateRevertsToCachedType` | Packages/com.lukeandrews.unity-extension/Runtime/Types/SubclassOf.cs:25-37 | A stored name that does not resolve, next to an older cached strict subclass: `Validate` succeeds and restores the older type and its name. |
| `Types.SerializationRoundTrip` | Packages/com.lukeandrews.unity-extension/Runtime/Types/SubclassOf.cs:177-185 | Validate, persist the two names, restore them into a fresh object, and validate again. The result is the same selection, as long as the chosen type is still loaded. |
| `Types.SubclassOf.OnBeforeSerialize` | Packages/com.lukeandrews.unity-extension/Runtime/Types/SubclassOf.cs:177-180 | The hook has exactly the effect of `Validate`. |
| `Types.SubclassOf.OnAfterDeserialize` | Packages/com.lukeandrews.unity-extension/Runtime/Types/SubclassOf.cs:182-185 | The hook has exactly the effect of `Validate`. |
| `Types.CreateInstanceStep` | Packages/com.lukeandrews.unity-extension/Runtime/Types/SubclassOf.cs:125-132 | `InvalidOperationException` is thrown exactly when the first read of `SubclassType` is null. `ArgumentNullException` is thrown exactly when the first read is a type and the second is null, which happens whenever the first read returned a stale cache after a failed resolution. Otherwise the type handed on is the one left cached. |
| `Types.SubclassOf.CreateInstance` | Packages/com.lukeandrews.unity-extension/Runtime/Types/SubclassOf.cs:125-132 | The method's effect and outcome are those of `CreateInstanceStep`. |
| `Types.CreateInstanceWithoutSelectionThrows` | Packages/com.lukeandrews.unity-extension/Runtime/Types/SubclassOf.cs:127-130 | On a fresh reference, `CreateInstance` throws `InvalidOperationException`. |
| `Types.CompareTypes` | Packages/com.lukeandrews.unity-extension/Runtime/Types/SubclassOf.cs:151-156 | `SubclassType.Equals(x)` throws exactly when `SubclassType` is null. Otherwise it is true exactly when `x` is that type. |
| `Types.EqualsTypeStep` | Packages/com.lukeandrews.unity-extension/Runtime/Types/SubclassOf.cs:149-152 | `Equals(Type)` reads the selection through the mutating getter and throws when it is null. Otherwise it is true exactly when the selection is `other`. |
| `Types.SubclassOf.EqualsType` | Packages/com.lukeandrews.unity-extension/Runtime/Types/SubclassOf.cs:149-152 | The method's effect and result are those of `EqualsTypeStep`. |
| `Types.SubclassOf.EqualsSubclassOf` | Packages/com.lukeandrews.unity-extension/Runtime/Types/SubclassOf.cs:154-157 | Both getters are read, this one first, so both objects' caches may change, including when `other` is this object. A null `other` throws after this read. The result compares the two selections. |
| `Types.SubclassOf.EqualsObject` | Packages/com.lukeandrews.unity-extension/Runtime/Types/SubclassOf.cs:159-170 | A `SubclassOf` with the same T and a `Type` are compared as above. Anything else, including null, is false and changes nothing. |
| `Types.SubclassOf.GetHashCode` | Packages/com.lukeandrews.unity-extension/Runtime/Types/SubclassOf.cs:172-175 | The hash is the combiner applied to the two persisted names. Every field state with the same names hashes alike, whatever its caches hold. |
| `Types.HashIgnoresCaches` | Packages/com.lukeandrews.unity-extension/Runtime/Types/SubclassOf.cs:172-175 | Two states that differ only in their caches have equal hashes. |
| `Editor.FilterCandidatesMember` | Packages/com.lukeandrews.unity-extension/Editor/SubclassOfDrawer.cs:118 | A type survives the `Where` filter exactly when it is in the input and passes the three tests. |
| `Editor.FilterCandidatesAppend` | Packages/com.lukeandrews.unity-extension/Editor/SubclassOfDrawer.cs:118 | Filtering a concatenation is the concatenation of the filtered parts, so the filter keeps the input order. |
| `Editor.ExportedTypesMember` | Packages/com.lukeandrews.unity-extension/Editor/SubclassOfDrawer.cs:116-117 | The scanned types are exactly those exported by some non-dynamic assembly. |
| `Editor.ExportedTypesAppend` | Packages/com.lukeandrews.unity-extension/Editor/SubclassOfDrawer.cs:116-117 | `SelectMany` over a concatenation of assemblies is the concatenation of their exports. |
| `Editor.Candidates` | Packages/com.lukeandrews.unity-extension/Editor/SubclassOfDrawer.cs:116-118 | The full scan holds exactly the types that a non-dynamic assembly exports and that are strict, non-abstract subclasses of the base other than the base itself. `CandidatesInOrder` gives their order. |
| `Editor.CandidatesExactly` | Packages/com.lukeandrews.unity-extension/Editor/SubclassOfDrawer.cs:116-118 | For any list of assemblies, a type is a candidate exactly when a non-dynamic assembly exports it and it is a strict subclass of the base, not the base, and not abstract. |
| `Editor.CandidatesInOrder` | Packages/com.lukeandrews.unity-extension/Editor/SubclassOfDrawer.cs:116-118 | Candidates come in assembly order, then in exported-type order within each assembly. |
| `Editor.BaseExclusionImplied` | Packages/com.lukeandrews.unity-extension/Editor/SubclassOfDrawer.cs:118 | When `IsSubclassOf` is strict, the `type != baseType` test is redundant. |
| `Editor.Query` | Packages/com.lukeandrews.unity-extension/Editor/SubclassOfDrawer.cs:101-120 | A present, clean entry returns its stored list with no change and no scan. Otherwise the list is a fresh scan, stored under the base type. Exactly that one key is added if missing, and no other entry changes. A new entry starts not dirty, and `Dirty` is never reset. |
| `Editor.SubclassCacheTable.GetSubclassTypes` | Packages/com.lukeandrews.unity-extension/Editor/SubclassOfDrawer.cs:101-120 | The table's contents and the returned list are those of `Query`. Existing entries keep their objects, a new entry is a fresh object, and distinct keys keep distinct entries. |
| `Editor.SubclassCache.constructor` | Packages/com.lukeandrews.unity-extension/Editor/SubclassOfDrawer.cs:14-26 | A new cache entry records its base type and starts not dirty, with an empty list. |
| `Editor.SubclassCacheTable.constructor` | Packages/com.lukeandrews.unity-extension/Editor/SubclassOfDrawer.cs:33 | The table starts empty. |
| `Editor.MarkAllDirty` | Packages/com.lukeandrews.unity-extension/Editor/SubclassOfDrawer.cs:122-129 | A reload keeps the same keys and the same lists, and every entry is dirty. |
| `Editor.SubclassCacheTable.OnScriptReload` | Packages/com.lukeandrews.unity-extension/Editor/SubclassOfDrawer.cs:122-129 | The loop over the dictionary sets `Dirty` on every entry. It adds and removes no key and changes no list. |
| `Editor.DirtyStaysDirty` | Packages/com.lukeandrews.unity-extension/Editor/SubclassOfDrawer.cs:18 | Over any sequence of queries and reloads, no entry is removed and a dirty entry stays dirty. |
| `Editor.DirtyEntryAlwaysRescans` | Packages/com.lukeandrews.unity-extension/Editor/SubclassOfDrawer.cs:104-119 | Once an entry is dirty, every later query for it returns a fresh scan of the universe of that moment. |
| `Editor.ReloadThenQueryRescans` | Packages/com.lukeandrews.unity-extension/Editor/SubclassOfDrawer.cs:122-129 | After a reload, the next query for a cached base type reflects the current universe. |
| `Editor.CleanEntryIgnoresUniverse` | Packages/com.lukeandrews.unity-extension/Editor/SubclassOfDrawer.cs:104-109 | Before any reload, a clean entry is returned unchanged however the universe has changed. |
| `Editor.PopupLabels` | Packages/com.lukeandrews.unity-extension/Editor/SubclassOfDrawer.cs:42-47 | There are n+1 labels. Label 0 is "None" and label i+1 is the `Name` of candidate i. |
| `Editor.SubclassOfDrawer.BuildLabels` | Packages/com.lukeandrews.unity-extension/Editor/SubclassOfDrawer.cs:42-47 | The label loop builds exactly `PopupLabels`. |
| `Editor.FirstMatch` | Packages/com.lukeandrews.unity-extension/Editor/SubclassOfDrawer.cs:77-85 | The result is the position of the first candidate whose qualified name matches, or -1 exactly when none matches. |
| `Editor.SubclassOfDrawer.FindCandidate` | Packages/com.lukeandrews.unity-extension/Editor/SubclassOfDrawer.cs:77-85 | The search loop with `break` finds `FirstMatch`. |
| `Editor.Resync` | Packages/com.lukeandrews.unity-extension/Editor/SubclassOfDrawer.cs:73-86 | A blank stored name leaves the selection alone, and so does a `_selectedClass` that already names a candidate carrying the stored name. A `_selectedClass` other than -1 and out of range throws. A changed selection is the first match, with index = class + 1. When some candidate carries the stored name, the selection ends on such a candidate. |
| `Editor.SubclassOfDrawer.ResyncSelection` | Packages/com.lukeandrews.unity-extension/Editor/SubclassOfDrawer.cs:73-86 | The drawer's fields after the re-sync, and any exception, are those of `Resync`. |
| `Editor.UnmatchedNameKeepsSelection` | Packages/com.lukeandrews.unity-extension/Editor/SubclassOfDrawer.cs:77-86 | A stored name no candidate carries keeps the previous index; there is no fallback to "None". |
| `Editor.WriteBack` | Packages/com.lukeandrews.unity-extension/Editor/SubclassOfDrawer.cs:91-98 | Index 0 writes "". Index k in 1..n writes candidate k-1's qualified name. Any other index throws. |
| `Editor.WriteBackThenResync` | Packages/com.lukeandrews.unity-extension/Editor/SubclassOfDrawer.cs:73-98 | With distinct candidate names, the name written for index k+1 re-syncs to index k+1 on the next render, even from a drawer holding no selection. |
| `Editor.SubclassOfDrawer.constructor` | Packages/com.lukeandrews.unity-extension/Editor/SubclassOfDrawer.cs:30-31 | A new drawer has `_selectedIndex` 0 and `_selectedClass` -1, so `_selectedClass` is `_selectedIndex - 1`. |
| `Editor.SubclassOfDrawer.OnGUI` | Packages/com.lukeandrews.unity-extension/Editor/SubclassOfDrawer.cs:37-98 | `_selectedClass == _selectedIndex - 1` is preserved. An unresolvable base name throws and changes nothing. Otherwise the cache is queried, and a failed re-sync leaves the fields. On success, `_selectedIndex` is what the popup returns for the re-synced index and labels, `_selectedClass` is `_selectedIndex - 1`, and the written name is `WriteBack` of that index. |
| `Animation.GetInverseEasingMode` | Packages/com.lukeandrews.unity-extension/Runtime/Animation/Easing.cs:36-71 | The result has the same curve family as the input, with In and Out exchanged; InOut and undirected modes keep their direction. |
| `Animation.ModeDeterminedByFamilyAndDirection` | Packages/com.lukeandrews.unity-extension/Runtime/Animation/Easing.cs:5-30 | Family and direction determine a mode, so the contract of `GetInverseEasingMode` fixes its result. |
| `Animation.InverseIsInvolution` | Packages/com.lukeandrews.unity-extension/Runtime/Animation/Easing.cs:36-71 | Applying the inverse twice returns the original mode, for every mode. |
| `Animation.InverseFixedPoints` | Packages/com.lukeandrews.unity-extension/Runtime/Animation/Easing.cs:40-41 | The default branch fixes exactly `Ease`, `Linear`, `EaseInOut` and every `EaseInOut*` mode. |

## Left out

- Types.SubclassOf.CreateInstance: returns the type it would hand to `Activator.CreateInstance`, not an instance. The constructor call and its exceptions are foreign code.
- `Debug.LogException`: only `GetSubclassType` reports the logged exception. `Validate`, `CreateInstance` and `Equals` drop it, since logging does not affect state.
- `Type.GetType` exceptions other than `TypeLoadException` are not modelled. Every resolution failure is a `TypeLoadException`, which is the one the getter catches. When a stored name's assembly is missing, `Type.GetType(name, true)` throws `FileNotFoundException` (or `FileLoadException`) instead. Nothing catches it, so in the source it escapes `SubclassType`, `Validate` and both serialization hooks. The model self-heals in that case instead (`Types.ValidateClearsUnresolvable`).
- The easing curves (`PerformEase`, `InSine`, `OutBounce`, ...) are single-precision floating point.
- Enum values outside the declared `EasingMode` members are not modelled; the C# default branch would return them unchanged.
- The header label built in `OnGUI` (SubclassOfDrawer.cs lines 49-69) is string formatting over generic-argument names that come from reflection on the field.
- The implicit conversions and the `==`/`!=` operators (SubclassOf.cs lines 85-123) only delegate to the constructor, the getter and `Equals`.
- `HashCode.Combine` is a parameter. Its actual values come from the .NET library.
- Editor UI and serialization plumbing are reduced to parameters:
  - `EditorGUI.Popup` is a function parameter.
  - The two `SerializedProperty` strings are a parameter and the returned value.
  - `GUIContent`, `fieldInfo`, and the `[CustomPropertyDrawer]`/`[DidReloadScripts]` attributes are not modelled; the reload callback is a plain method.
- The drawer's static dictionary is an explicit `SubclassCacheTable` object passed to `OnGUI`.
- `SubclassCache.SubclassTypes` is modelled as an empty list before its first fill, not null. Because the model treats listing exported types as total, `GetSubclassTypes` always fills it before returning, so the difference is never observed in the model. In the source, a throwing scan leaves the null list behind (see the stuck-entry note above).
- The private parameterless `SubclassCache` constructor is unused and is not modelled.
- Concurrency: the source is single-threaded editor code.
