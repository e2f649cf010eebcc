/**
 * `SubclassOf<T>`: a serializable reference to a strict subclass of a
 * declared base type `T`.
 *
 * The object keeps two persisted strings (the base type's and the chosen
 * subclass's assembly-qualified names) and two lazily resolved caches. Each
 * operation is first stated as a function from the old field values to the
 * new ones (and its result or exception); the class `SubclassOf` then
 * implements the operations imperatively, as the source does, and each method
 * is proved to follow its function. The lemmas at the end state what the
 * operations promise.
 */
module Types {
  import opened Wrappers
  import opened Reflection

  /** The four private fields: `_classType`, `_subclassType`, `_classTypeName`, `_subclassTypeName`. */
  datatype State = State(
    classType: Option<Type>,
    subclassType: Option<Type>,
    classTypeName: string,
    subclassTypeName: Option<string>)

  /** The new fields after an operation, and what it returned or threw. */
  datatype Step<+R> = Step(state: State, result: Result<R, Exception>)

  /** The new fields after a read of `SubclassType`, the value read, and the exception it logged, if any. */
  datatype Read = Read(state: State, value: Option<Type>, diagnostic: Option<Exception>)

  /** The fields right after `new SubclassOf<T>()`. */
  function Initial(declared: Type): State {
    State(None, None, declared.qualifiedName, None)
  }

  /** The cached subclass is the one the stored name names, so a read need not resolve. */
  predicate CacheMatchesName(s: State) {
    s.subclassType.Some? && s.subclassTypeName == Some(s.subclassType.value.qualifiedName)
  }

  /**
   * The selection is coherent: either nothing is selected (both fields null),
   * or the cached subclass is named by the stored name and is a strict
   * subclass of the cached base type.
   */
  predicate Coherent(u: Universe, s: State) {
    || (s.subclassType.None? && s.subclassTypeName.None?)
    || (CacheMatchesName(s) && s.classType.Some? && u.IsSubclassOf(s.subclassType.value, s.classType.value))
  }

  /** The `ClassType` getter: resolves `_classTypeName` once and memoises it; throws when it does not resolve. */
  function ClassTypeGet(u: Universe, s: State): (r: Step<Type>)
    ensures r.state == s.(classType := r.state.classType)
    ensures s.classType.Some? ==> r == Step(s, Success(s.classType.value))
    ensures r.result.Failure? <==> s.classType.None? && u.GetType(s.classTypeName).None?
    ensures r.result.Failure? ==> r.state == s && r.result.error == TypeLoadException(s.classTypeName)
    ensures r.result.Success? ==> r.state.classType == Some(r.result.value)
    ensures s.classType.None? && r.result.Success? ==> u.GetType(s.classTypeName) == Some(r.result.value)
  {
    if s.classType.Some? then Step(s, Success(s.classType.value))
    else match u.GetType(s.classTypeName)
      case None => Step(s, Failure(TypeLoadException(s.classTypeName)))
      case Some(t) => Step(s.(classType := Some(t)), Success(t))
  }

  /**
   * The `SubclassType` getter. It re-resolves the stored name unless the
   * cache already matches it; a failed resolution is logged (never thrown),
   * clears the stored name and leaves the previous cache as the result.
   */
  function SubclassTypeGet(u: Universe, s: State): (r: Read)
    ensures r.state.classType == s.classType && r.state.classTypeName == s.classTypeName
    ensures r.value == r.state.subclassType
    ensures CacheMatchesName(s) ==> r == Read(s, s.subclassType, None)
    ensures !CacheMatchesName(s) && IsNullOrEmpty(s.subclassTypeName) ==>
              r == Read(s.(subclassType := None), None, None)
    ensures r.diagnostic.Some? <==>
              !CacheMatchesName(s) && !IsNullOrEmpty(s.subclassTypeName)
              && u.GetType(s.subclassTypeName.value).None?
    ensures r.diagnostic.Some? ==>
              r.state == s.(subclassTypeName := None) && r.value == s.subclassType
              && r.diagnostic.value.TypeLoadException?
    ensures !CacheMatchesName(s) && !IsNullOrEmpty(s.subclassTypeName)
            && u.GetType(s.subclassTypeName.value).Some? ==>
              r.state == s.(subclassType := u.GetType(s.subclassTypeName.value))
              && r.diagnostic.None?
  {
    if !CacheMatchesName(s) then
      if !IsNullOrEmpty(s.subclassTypeName) then
        match u.GetType(s.subclassTypeName.value)
        case Some(t) => Read(s.(subclassType := Some(t)), Some(t), None)
        case None =>
          Read(s.(subclassTypeName := None), s.subclassType,
               Some(TypeLoadException(s.subclassTypeName.value)))
      else if s.subclassType.Some? then Read(s.(subclassType := None), None, None)
      else Read(s, None, None)
    else Read(s, s.subclassType, None)
  }

  /**
   * The `SubclassType` setter: null clears the selection; anything else must
   * be a strict subclass of `ClassType`, or `ArgumentException` is thrown
   * and the selection is left as it was.
   */
  function SubclassTypeSet(u: Universe, s: State, value: Option<Type>): (r: Step<()>)
    ensures r.state.classTypeName == s.classTypeName
    ensures value.None? ==> r == Step(s.(subclassType := None, subclassTypeName := None), Success(()))
    ensures value.Some? && ClassTypeGet(u, s).result.Failure? ==>
              r == Step(s, Failure(TypeLoadException(s.classTypeName)))
    ensures value.Some? && ClassTypeGet(u, s).result.Success? ==>
              var base := ClassTypeGet(u, s).result.value;
              r.state.classType == Some(base)
              && if u.IsSubclassOf(value.value, base) then
                   r.result.Success? && r.state.subclassType == value
                   && r.state.subclassTypeName == Some(value.value.qualifiedName)
                 else
                   r.result == Failure(ArgumentException)
                   && r.state.subclassType == s.subclassType
                   && r.state.subclassTypeName == s.subclassTypeName
  {
    match value
    case None => Step(s.(subclassType := None, subclassTypeName := None), Success(()))
    case Some(t) =>
      var c := ClassTypeGet(u, s);
      match c.result
      case Failure(e) => Step(c.state, Failure(e))
      case Success(base) =>
        if !u.IsSubclassOf(t, base) then Step(c.state, Failure(ArgumentException))
        else Step(c.state.(subclassType := value, subclassTypeName := Some(t.qualifiedName)), Success(()))
  }

  /**
   * `Validate`, run by both serialization hooks: re-derive the base type's
   * name, read the selection, and clear it (rather than throw) when it is not
   * a strict subclass of `ClassType`.
   */
  function ValidateStep(u: Universe, declared: Type, s: State): (r: Step<()>)
    ensures r.state.classTypeName == declared.qualifiedName
    ensures r.result.Success? ==> Coherent(u, r.state)
    ensures r.result.Failure? ==>
              r.result.error == TypeLoadException(declared.qualifiedName)
              && s.classType.None? && u.GetType(declared.qualifiedName).None?
  {
    var s0 := s.(classTypeName := declared.qualifiedName);
    var read := SubclassTypeGet(u, s0);
    match read.value
    case None => SubclassTypeSet(u, read.state, None)
    case Some(sub) =>
      var c := ClassTypeGet(u, read.state);
      match c.result
      case Failure(e) => Step(c.state, Failure(e))
      case Success(base) =>
        if !u.IsSubclassOf(sub, base) then SubclassTypeSet(u, c.state, None)
        else SubclassTypeSet(u, c.state, Some(sub))
  }

  /**
   * `CreateInstance`, up to the foreign call: the type that would be handed to
   * `Activator.CreateInstance`. The getter is read twice, as in the source.
   */
  function CreateInstanceStep(u: Universe, s: State): (r: Step<Type>)
    ensures r.result == Failure(InvalidOperationException) <==> SubclassTypeGet(u, s).value.None?
    ensures r.result.Success? ==> r.state.subclassType == Some(r.result.value)
    ensures r.result == Failure(ArgumentNullException) <==>
              SubclassTypeGet(u, s).value.Some? && SubclassTypeGet(u, SubclassTypeGet(u, s).state).value.None?
    ensures SubclassTypeGet(u, s).value.Some? && SubclassTypeGet(u, s).diagnostic.Some? ==>
              r.result == Failure(ArgumentNullException)
  {
    var first := SubclassTypeGet(u, s);
    if first.value.None? then Step(first.state, Failure(InvalidOperationException))
    else
      var second := SubclassTypeGet(u, first.state);
      if second.value.None? then Step(second.state, Failure(ArgumentNullException))
      else Step(second.state, Success(second.value.value))
  }

  /** `mine.Equals(theirs)` on two `Type` values, `mine` possibly null. */
  function CompareTypes(mine: Option<Type>, theirs: Option<Type>): (r: Result<bool, Exception>)
    ensures r.Failure? <==> mine.None?
    ensures r.Success? ==> (r.value <==> theirs == mine)
  {
    if mine.None? then Failure(NullReferenceException) else Success(mine == theirs)
  }

  /** `Equals(Type other)`: compares the read selection with `other`; throws when nothing is selected. */
  function EqualsTypeStep(u: Universe, s: State, other: Option<Type>): (r: Step<bool>)
    ensures r.state == SubclassTypeGet(u, s).state
    ensures r.result.Failure? <==> SubclassTypeGet(u, s).value.None?
    ensures r.result.Success? ==> (r.result.value <==> other == SubclassTypeGet(u, s).value)
  {
    var read := SubclassTypeGet(u, s);
    Step(read.state, CompareTypes(read.value, other))
  }

  /** `GetHashCode`: `HashCode.Combine` (a parameter here) of the two persisted names. */
  function HashCode(s: State, combine: (string, Option<string>) -> int): int {
    combine(s.classTypeName, s.subclassTypeName)
  }

  /** An argument of `Equals(object)`. */
  datatype Obj = NullObj | RefObj(reference: SubclassOf) | TypeObj(typ: Type) | OtherObj

  class SubclassOf {
    const declaredType: Type  // typeof(T)
    var classType: Option<Type>
    var subclassType: Option<Type>
    var classTypeName: string
    var subclassTypeName: Option<string>

    function Fields(): State
      reads this
    {
      State(classType, subclassType, classTypeName, subclassTypeName)
    }

    /** `new SubclassOf<T>()`. */
    constructor (declaredType: Type)
      ensures this.declaredType == declaredType
      ensures Fields() == Initial(declaredType)
    {
      this.declaredType := declaredType;
      classType := None;
      subclassType := None;
      classTypeName := declaredType.qualifiedName;
      subclassTypeName := None;
    }

    /** `new SubclassOf<T>(subclassType)`: the plain constructor, then the setter. */
    static method FromType(declaredType: Type, value: Option<Type>, u: Universe)
      returns (r: Result<SubclassOf, Exception>)
      ensures var step := SubclassTypeSet(u, Initial(declaredType), value);
        match r
        case Success(o) =>
          fresh(o) && o.declaredType == declaredType && step.result.Success? && o.Fields() == step.state
        case Failure(e) => step.result == Failure(e)
    {
      var o := new SubclassOf(declaredType);
      var outcome := o.SetSubclassType(u, value);
      if outcome.Failure? {
        return Failure(outcome.error);
      }
      r := Success(o);
    }

    /** The `ClassType` getter. */
    method GetClassType(u: Universe) returns (r: Result<Type, Exception>)
      modifies this
      ensures Step(Fields(), r) == ClassTypeGet(u, old(Fields()))
    {
      if classType.None? {
        var resolved := u.GetType(classTypeName);
        if resolved.None? {
          return Failure(TypeLoadException(classTypeName));
        }
        classType := resolved;
      }
      r := Success(classType.value);
    }

    /** The `SubclassType` getter; `diagnostic` is the exception passed to `Debug.LogException`, if any. */
    method GetSubclassType(u: Universe) returns (r: Option<Type>, diagnostic: Option<Exception>)
      modifies this
      ensures Read(Fields(), r, diagnostic) == SubclassTypeGet(u, old(Fields()))
    {
      diagnostic := None;
      if subclassType.None? || Some(subclassType.value.qualifiedName) != subclassTypeName {
        if !IsNullOrEmpty(subclassTypeName) {
          var resolved := u.GetType(subclassTypeName.value);
          if resolved.Some? {
            subclassType := resolved;
          } else {
            diagnostic := Some(TypeLoadException(subclassTypeName.value));
            subclassTypeName := None;
          }
        } else if subclassType.Some? {
          subclassType := None;
        }
      }
      r := subclassType;
    }

    /** The `SubclassType` setter. */
    method SetSubclassType(u: Universe, value: Option<Type>) returns (r: Result<(), Exception>)
      modifies this
      ensures Step(Fields(), r) == SubclassTypeSet(u, old(Fields()), value)
    {
      if value.Some? {
        var base := GetClassType(u);
        if base.Failure? {
          return Failure(base.error);
        }
        if !u.IsSubclassOf(value.value, base.value) {
          return Failure(ArgumentException);
        }
        subclassTypeName := Some(value.value.qualifiedName);
      } else {
        subclassTypeName := None;
      }
      subclassType := value;
      r := Success(());
    }

    /** `CreateInstance`, returning the type that would be instantiated. */
    method CreateInstance(u: Universe) returns (r: Result<Type, Exception>)
      modifies this
      ensures Step(Fields(), r) == CreateInstanceStep(u, old(Fields()))
    {
      var selected, _ := GetSubclassType(u);
      if selected.None? {
        return Failure(InvalidOperationException);
      }
      var target, _ := GetSubclassType(u);
      if target.None? {
        return Failure(ArgumentNullException);
      }
      r := Success(target.value);
    }

    method Validate(u: Universe) returns (r: Result<(), Exception>)
      modifies this
      ensures Step(Fields(), r) == ValidateStep(u, declaredType, old(Fields()))
    {
      classTypeName := declaredType.qualifiedName;
      var temp, _ := GetSubclassType(u);
      if temp.Some? {
        var base := GetClassType(u);
        if base.Failure? {
          return Failure(base.error);
        }
        if !u.IsSubclassOf(temp.value, base.value) {
          r := SetSubclassType(u, None);
          return;
        }
      }
      r := SetSubclassType(u, temp);
    }

    /** `Equals(Type other)`. */
    method EqualsType(u: Universe, other: Option<Type>) returns (r: Result<bool, Exception>)
      modifies this
      ensures Step(Fields(), r) == EqualsTypeStep(u, old(Fields()), other)
    {
      var mine, _ := GetSubclassType(u);
      r := CompareTypes(mine, other);
    }

    /**
     * `Equals(SubclassOf<T> other)`: reads this selection, then the other's
     * (which throws when `other` is null), then compares.
     */
    method EqualsSubclassOf(u: Universe, other: SubclassOf?) returns (r: Result<bool, Exception>)
      modifies this, other
      ensures var mine := SubclassTypeGet(u, old(Fields()));
        if other == null then
          Fields() == mine.state && r == Failure(NullReferenceException)
        else if other == this then
          var theirs := SubclassTypeGet(u, mine.state);
          Fields() == theirs.state && r == CompareTypes(mine.value, theirs.value)
        else
          var theirs := SubclassTypeGet(u, old(other.Fields()));
          Fields() == mine.state && other.Fields() == theirs.state
          && r == CompareTypes(mine.value, theirs.value)
    {
      var mine, _ := GetSubclassType(u);
      if other == null {
        return Failure(NullReferenceException);
      }
      var theirs, _ := other.GetSubclassType(u);
      r := CompareTypes(mine, theirs);
    }

    /** `Equals(object obj)`: only a `SubclassOf<T>` of the same `T` or a `Type` can compare equal. */
    method EqualsObject(u: Universe, obj: Obj) returns (r: Result<bool, Exception>)
      modifies this, if obj.RefObj? then {obj.reference} else {}
      ensures obj.TypeObj? ==> Step(Fields(), r) == EqualsTypeStep(u, old(Fields()), Some(obj.typ))
      ensures obj.RefObj? && obj.reference.declaredType == declaredType ==>
        var mine := SubclassTypeGet(u, old(Fields()));
        if obj.reference == this then
          var theirs := SubclassTypeGet(u, mine.state);
          Fields() == theirs.state && r == CompareTypes(mine.value, theirs.value)
        else
          var theirs := SubclassTypeGet(u, old(obj.reference.Fields()));
          Fields() == mine.state && obj.reference.Fields() == theirs.state
          && r == CompareTypes(mine.value, theirs.value)
      ensures obj.NullObj? || obj.OtherObj? || (obj.RefObj? && obj.reference.declaredType != declaredType) ==>
        r == Success(false) && Fields() == old(Fields())
    {
      match obj
      case RefObj(o) =>
        if o.declaredType == declaredType {
          r := EqualsSubclassOf(u, o);
        } else {
          r := Success(false);
        }
      case TypeObj(t) =>
        r := EqualsType(u, Some(t));
      case _ =>
        r := Success(false);
    }

    /** `GetHashCode`: a function of the two persisted names only, never of the caches. */
    method GetHashCode(combine: (string, Option<string>) -> int) returns (h: int)
      ensures h == combine(classTypeName, subclassTypeName)
      ensures forall s: State :: s.classTypeName == classTypeName && s.subclassTypeName == subclassTypeName ==>
                h == HashCode(s, combine)
    {
      h := combine(classTypeName, subclassTypeName);
    }

    /** `ISerializationCallbackReceiver.OnBeforeSerialize`. */
    method OnBeforeSerialize(u: Universe) returns (r: Result<(), Exception>)
      modifies this
      ensures Step(Fields(), r) == ValidateStep(u, declaredType, old(Fields()))
    {
      r := Validate(u);
    }

    /** `ISerializationCallbackReceiver.OnAfterDeserialize`. */
    method OnAfterDeserialize(u: Universe) returns (r: Result<(), Exception>)
      modifies this
      ensures Step(Fields(), r) == ValidateStep(u, declaredType, old(Fields()))
    {
      r := Validate(u);
    }
  }

  // ---------------------------------------------------------------------------
  // What the operations promise

  /** After a successful assignment of `S`, every later read returns `S` without resolving, whatever the universe. */
  lemma AssignedSubclassReadsBack(u: Universe, later: Universe, s: State, sub: Type)
    requires SubclassTypeSet(u, s, Some(sub)).result.Success?
    ensures var t := SubclassTypeSet(u, s, Some(sub)).state;
      SubclassTypeGet(later, t) == Read(t, Some(sub), None)
  {
  }

  /** After assigning null, a read returns null and nothing is logged. */
  lemma ClearedReadsNone(u: Universe, later: Universe, s: State)
    ensures var t := SubclassTypeSet(u, s, None).state;
      SubclassTypeGet(later, t).value.None? && SubclassTypeGet(later, t).diagnostic.None?
  {
  }

  /** With `T` resolvable, no exception escapes `Validate`. */
  lemma ValidateNeverThrows(u: Universe, declared: Type, s: State)
    requires u.GetType(declared.qualifiedName).Some?
    ensures ValidateStep(u, declared, s).result.Success?
  {
  }

  /** A coherent state with the right base name is a fixed point of `Validate`. */
  lemma ValidateFixesCoherent(u: Universe, declared: Type, s: State)
    requires Coherent(u, s) && s.classTypeName == declared.qualifiedName
    ensures ValidateStep(u, declared, s) == Step(s, Success(()))
  {
    if s.subclassType.Some? {
      assert SubclassTypeGet(u, s) == Read(s, s.subclassType, None);
    }
  }

  /** Running `Validate` twice yields the same state (and outcome) as running it once. */
  lemma ValidateIdempotent(u: Universe, declared: Type, s: State)
    requires ValidateStep(u, declared, s).result.Success?
    ensures ValidateStep(u, declared, ValidateStep(u, declared, s).state) == ValidateStep(u, declared, s)
  {
    ValidateFixesCoherent(u, declared, ValidateStep(u, declared, s).state);
  }

  /**
   * What `Validate` keeps, when `T` is loaded and the base-type cache is empty
   * or `T`: the selection it reads survives exactly when it is a strict
   * subclass of `T`; otherwise both subclass fields are cleared.
   */
  lemma ValidateOutcome(u: Universe, declared: Type, s: State)
    requires u.Loaded(declared)
    requires s.classType.None? || s.classType == Some(declared)
    ensures var r := ValidateStep(u, declared, s);
      var selected := SubclassTypeGet(u, s.(classTypeName := declared.qualifiedName)).value;
      && r.result.Success?
      && (r.state.classType.None? || r.state.classType == Some(declared))
      && if selected.Some? && u.IsSubclassOf(selected.value, declared) then
           r.state.subclassType == selected && r.state.subclassTypeName == Some(selected.value.qualifiedName)
         else
           r.state.subclassType.None? && r.state.subclassTypeName.None?
  {
  }

  /** In a valid universe, a selection that survives `Validate` is never the base type itself. */
  lemma ValidatedSelectionIsNotBase(u: Universe, declared: Type, s: State)
    requires u.Valid()
    requires ValidateStep(u, declared, s).result.Success?
    ensures var t := ValidateStep(u, declared, s).state;
      t.subclassType.Some? ==> t.classType.Some? && t.subclassType != t.classType
  {
  }

  /**
   * Self-healing: a stored subclass name that no longer resolves (its type
   * is gone from a still-loaded assembly) is cleared by `Validate`, and
   * nothing is thrown.
   */
  lemma ValidateClearsUnresolvable(u: Universe, declared: Type, s: State, name: string)
    requires u.GetType(declared.qualifiedName).Some?
    requires s.subclassType.None? && s.subclassTypeName == Some(name) && u.GetType(name).None?
    ensures ValidateStep(u, declared, s).result.Success?
    ensures ValidateStep(u, declared, s).state.subclassType.None?
    ensures ValidateStep(u, declared, s).state.subclassTypeName.None?
  {
  }

  /**
   * A stored name that no longer resolves, next to an older cached subclass
   * of the base: the getter returns the older type and `Validate` writes its
   * name back, so the selection reverts to it rather than being cleared.
   */
  lemma ValidateRevertsToCachedType(u: Universe, declared: Type, s: State, prev: Type, name: string)
    requires s.classType.None? && u.GetType(declared.qualifiedName).Some?
    requires u.IsSubclassOf(prev, u.GetType(declared.qualifiedName).value)
    requires s.subclassType == Some(prev) && s.subclassTypeName == Some(name)
    requires name != prev.qualifiedName && name != "" && u.GetType(name).None?
    ensures ValidateStep(u, declared, s).result.Success?
    ensures ValidateStep(u, declared, s).state.subclassType == Some(prev)
    ensures ValidateStep(u, declared, s).state.subclassTypeName == Some(prev.qualifiedName)
  {
  }

  /**
   * Serialization round trip: only the two names are persisted; restoring
   * them into a fresh object and running `OnAfterDeserialize` gives back the
   * selection `OnBeforeSerialize` left, as long as that type is still loaded.
   */
  lemma SerializationRoundTrip(u: Universe, declared: Type, s: State)
    requires u.Valid() && u.Loaded(declared)
    requires s.classType.None? || s.classType == Some(declared)
    requires ValidateStep(u, declared, s).state.subclassType.Some?
    requires u.Loaded(ValidateStep(u, declared, s).state.subclassType.value)
    ensures var saved := ValidateStep(u, declared, s).state;
      var restored := State(None, None, saved.classTypeName, saved.subclassTypeName);
      ValidateStep(u, declared, restored) == Step(saved.(classType := Some(declared)), Success(()))
  {
    ValidateOutcome(u, declared, s);
    var saved := ValidateStep(u, declared, s).state;
    var restored := State(None, None, saved.classTypeName, saved.subclassTypeName);
    assert SubclassTypeGet(u, restored).value == saved.subclassType;
  }

  /** `CreateInstance` on a fresh reference (nothing selected) throws `InvalidOperationException`. */
  lemma CreateInstanceWithoutSelectionThrows(u: Universe, declared: Type)
    ensures CreateInstanceStep(u, Initial(declared)).result == Failure(InvalidOperationException)
  {
  }

  /** Two field states with the same persisted names hash alike. */
  lemma HashIgnoresCaches(s: State, t: State, combine: (string, Option<string>) -> int)
    requires s.classTypeName == t.classTypeName && s.subclassTypeName == t.subclassTypeName
    ensures HashCode(s, combine) == HashCode(t, combine)
  {
  }
}
