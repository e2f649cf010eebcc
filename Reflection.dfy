/**
 * The slice of the .NET runtime the package relies on, as an abstract type
 * universe: type handles with their names, the name resolver behind
 * `Type.GetType`, the `IsSubclassOf` and `IsAbstract` queries, the loaded
 * assemblies with their exported types, the exceptions that can be thrown,
 * and the two `System.String` blank tests.
 */
module Reflection {
  import opened Wrappers

  /**
   * A runtime type handle. `handle` tells apart distinct types; `name` is
   * `Type.Name` (used for popup labels) and `qualifiedName` is
   * `Type.AssemblyQualifiedName` (used for persistence and lookup).
   */
  datatype Type = Type(handle: nat, name: string, qualifiedName: string)

  /** A loaded assembly: whether it was generated dynamically, and `GetExportedTypes()` in order. */
  datatype Assembly = Assembly(isDynamic: bool, exportedTypes: seq<Type>)

  /** The exceptions the modelled code can raise. */
  datatype Exception =
    | TypeLoadException(typeName: string)
    | ArgumentException
    | ArgumentNullException
    | InvalidOperationException
    | NullReferenceException
    | IndexOutOfRangeException

  /**
   * The loaded-type universe at one moment. It may differ from call to call
   * (assemblies are reloaded), so every operation takes it as a parameter.
   */
  datatype Universe = Universe(
    resolver: map<string, Type>,       // names `Type.GetType` accepts, and what they resolve to
    supertypes: map<Type, set<Type>>,  // for each loaded type, every type it is a strict subclass of
    abstractTypes: set<Type>,
    assemblies: seq<Assembly>)         // `AppDomain.CurrentDomain.GetAssemblies()` in order
  {
    /** `Type.GetType(name)`: the type a name resolves to, or `None` when it does not resolve. */
    function GetType(name: string): Option<Type> {
      if name in resolver then Some(resolver[name]) else None
    }

    /** `t.IsSubclassOf(c)`. */
    predicate IsSubclassOf(t: Type, c: Type) {
      t in supertypes && c in supertypes[t]
    }

    /** `t.IsAbstract`. */
    predicate IsAbstract(t: Type) {
      t in abstractTypes
    }

    /** `t` is loaded: its own assembly-qualified name resolves back to it. */
    predicate Loaded(t: Type) {
      GetType(t.qualifiedName) == Some(t)
    }

    /** `IsSubclassOf` is strict (no type is a subclass of itself), and no type is named by the empty string. */
    ghost predicate Valid() {
      && (forall t :: t in supertypes ==> t !in supertypes[t])
      && "" !in resolver
    }
  }

  /** `string.IsNullOrEmpty` on a possibly-null string. */
  predicate IsNullOrEmpty(s: Option<string>) {
    s.None? || s.value == ""
  }

  /** `char.IsWhiteSpace`: the Unicode space, line and paragraph separators, U+0009..U+000D and U+0085. */
  predicate IsWhiteSpace(c: char) {
    var n := c as int;
    (0x09 <= n <= 0x0D) || n == 0x20 || n == 0x85 || n == 0xA0 || n == 0x1680
    || (0x2000 <= n <= 0x200A) || n == 0x2028 || n == 0x2029 || n == 0x202F
    || n == 0x205F || n == 0x3000
  }

  /** `string.IsNullOrWhiteSpace` on a string that is never null (a serialized string value). */
  predicate IsNullOrWhiteSpace(s: string) {
    forall i :: 0 <= i < |s| ==> IsWhiteSpace(s[i])
  }
}
