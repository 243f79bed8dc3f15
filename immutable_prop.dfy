/**
 * A property of an immutable type as the annotation processor sees it after
 * construction: the flags that decide which generated members exist, the
 * memoised remote-association test, and the resolution steps that link a
 * property to its target type, its formula dependencies and its id-view base.
 */
module ImmutableProps {
  import opened Wrappers
  import opened AptTypes
  import opened AccessorNames
  import opened PropConstruction

  /** An immutable type, as far as its properties consult it. */
  class ImmutableType {
    const qualifiedName: string
    const microServiceName: string
    const isEntity: bool
    const isMappedSuperClass: bool
    const isAcrossMicroServices: bool
    /** The element type of the type's id property. */
    const idElementType: TypeRef
    /** The declared properties, by name. */
    var props: map<string, ImmutableProp>

    constructor (qualifiedName: string, microServiceName: string, isEntity: bool,
                 isMappedSuperClass: bool, isAcrossMicroServices: bool, idElementType: TypeRef)
      ensures this.qualifiedName == qualifiedName && this.microServiceName == microServiceName
      ensures this.isEntity == isEntity && this.isMappedSuperClass == isMappedSuperClass
      ensures this.isAcrossMicroServices == isAcrossMicroServices && this.idElementType == idElementType
      ensures props == map[]
    {
      this.qualifiedName := qualifiedName;
      this.microServiceName := microServiceName;
      this.isEntity := isEntity;
      this.isMappedSuperClass := isMappedSuperClass;
      this.isAcrossMicroServices := isAcrossMicroServices;
      this.idElementType := idElementType;
      props := map[];
    }

    /** Every property is registered under its own name and is declared by this type. */
    ghost predicate Valid()
      reads this
    {
      forall n :: n in props ==> props[n].core.accessors.name == n && props[n].declaringType == this
    }
  }

  /** The wrapper class of a return type, when it is primitive. */
  function BoxTypeOf(returnType: TypeRef): (b: Option<string>)
    ensures b.Some? <==> returnType.Primitive?
    ensures b.Some? ==> Box(returnType) == Declared(b.value, [])
  {
    match returnType
    case Primitive(k) => Some(BoxedName(k))
    case _ => None
  }

  /** The elements of `s` without repetitions, in order of first occurrence (a `LinkedHashSet`). */
  function Dedup<T(==)>(s: seq<T>): seq<T>
  {
    if s == [] then []
    else
      var d := Dedup(s[..|s| - 1]);
      if s[|s| - 1] in d then d else d + [s[|s| - 1]]
  }

  /** `Dedup` keeps exactly the elements of its input, each once. */
  lemma {:induction false} DedupIsSet<T>(s: seq<T>)
    ensures forall x :: x in Dedup(s) <==> x in s
    ensures forall i, j :: 0 <= i < j < |Dedup(s)| ==> Dedup(s)[i] != Dedup(s)[j]
  {
    if s != [] {
      var init := s[..|s| - 1];
      DedupIsSet(init);
      assert s == init + [s[|s| - 1]];
    }
  }

  /** The properties that a sequence of names denotes. */
  function Lookup(props: map<string, ImmutableProp>, names: seq<string>): (r: seq<ImmutableProp>)
    requires forall j :: 0 <= j < |names| ==> names[j] in props
    ensures |r| == |names|
    ensures forall j :: 0 <= j < |names| ==> r[j] == props[names[j]]
  {
    seq(|names|, j requires 0 <= j < |names| => props[names[j]])
  }

  /** Looking up one more name appends its property, and `Dedup` keeps it only when it is new. */
  lemma LookupSnoc(props: map<string, ImmutableProp>, names: seq<string>, i: nat)
    requires i < |names| && forall j :: 0 <= j <= i ==> names[j] in props
    ensures Lookup(props, names[..i + 1]) == Lookup(props, names[..i]) + [props[names[i]]]
    ensures forall p :: p in Lookup(props, names[..i + 1]) <==> p in Lookup(props, names[..i]) || p == props[names[i]]
    ensures Dedup(Lookup(props, names[..i + 1]))
            == var d := Dedup(Lookup(props, names[..i]));
               if props[names[i]] in d then d else d + [props[names[i]]]
  {
  }

  /** The position of the first name that is not a key, or the length when all are keys. */
  function FirstMissing(names: seq<string>, keys: set<string>): (k: nat)
    ensures k <= |names|
    ensures forall j :: 0 <= j < k ==> names[j] in keys
    ensures k < |names| ==> names[k] !in keys
  {
    if names == [] then 0
    else if names[0] !in keys then 0
    else 1 + FirstMissing(names[1..], keys)
  }

  /**
   * The loop of `resolveFormulaDependencies`: walks the names in order until one is
   * not a property, marking each property found visibility-controllable, and
   * returns where it stopped and the properties found, each once.
   */
  method MarkDependencies(propMap: map<string, ImmutableProp>, names: seq<string>)
    returns (k: nat, props: seq<ImmutableProp>)
    modifies propMap.Values`isVisibilityControllable
    ensures k == FirstMissing(names, propMap.Keys)
    ensures props == Dedup(Lookup(propMap, names[..k]))
    ensures forall p :: p in propMap.Values ==>
              p.isVisibilityControllable == (old(p.isVisibilityControllable) || p in Lookup(propMap, names[..k]))
  {
    props := [];
    k := 0;
    ghost var found: seq<ImmutableProp> := [];
    while k < |names| && names[k] in propMap
      invariant k <= |names|
      invariant forall j :: 0 <= j < k ==> names[j] in propMap
      invariant found == Lookup(propMap, names[..k])
      invariant props == Dedup(found)
      invariant forall p :: p in propMap.Values ==>
                  p.isVisibilityControllable == (old(p.isVisibilityControllable) || p in found)
    {
      var prop := propMap[names[k]];
      LookupSnoc(propMap, names, k);
      if prop !in props {
        props := props + [prop];
      }
      prop.isVisibilityControllable := true;
      found := found + [prop];
      k := k + 1;
    }
  }

  class ImmutableProp {
    const declaringType: ImmutableType
    const id: int
    const core: PropMeta
    var targetType: ImmutableType?
    var dependencies: Option<seq<ImmutableProp>>
    var idViewBaseProp: ImmutableProp?
    var manyToManyViewBaseProp: ImmutableProp?
    var isVisibilityControllable: bool
    var remote: Option<bool>

    /** Stores the metadata the constructor computed; nothing is resolved yet. */
    constructor (declaringType: ImmutableType, id: int, core: PropMeta)
      ensures this.declaringType == declaringType && this.id == id && this.core == core
      ensures targetType == null && dependencies == None
      ensures idViewBaseProp == null && manyToManyViewBaseProp == null
      ensures !isVisibilityControllable && remote == None
    {
      this.declaringType := declaringType;
      this.id := id;
      this.core := core;
      targetType := null;
      dependencies := None;
      idViewBaseProp := null;
      manyToManyViewBaseProp := null;
      isVisibilityControllable := false;
      remote := None;
    }

    /** `isAssociation(entityLevel)`: an association to an immutable type, or, at entity level, to an entity. */
    function IsAssociation(entityLevel: bool): (b: bool)
      ensures b ==> core.elementType.Declared?
    {
      if entityLevel then core.isEntityAssociation else core.isAssociation
    }

    /** Whether the generated draft must hold a value: not for views of other properties, not for Java formulas. */
    function IsValueRequired(): (b: bool)
      reads this
      ensures b ==> idViewBaseProp == null && manyToManyViewBaseProp == null && !core.isJavaFormula
    {
      idViewBaseProp == null && manyToManyViewBaseProp == null && !core.isJavaFormula
    }

    /** Whether the generated draft tracks "loaded" separately: a stored property
        that can be null or whose non-list type is primitive. */
    function IsLoadedStateRequired(): (b: bool)
      reads this
      ensures b <==> idViewBaseProp == null && !core.isJavaFormula
                     && (core.decl.isNullable || (!core.isList && core.elementType.Primitive?))
    {
      idViewBaseProp == null && !core.isJavaFormula && (core.isNullable || IsPrimitiveName(core.typeName))
    }

    /** `getLoadedStateName(force)`: without `force` it fails for a property without loaded state. */
    function GetLoadedStateName(force: bool): (r: Result<string, MetaError>)
      reads this
      ensures r.Success? <==> force || IsLoadedStateRequired()
      ensures r.Success? ==> r.value == LoadedStateNameOf(core.accessors.name)
      ensures r.Failure? ==> r.error == NoLoadedState
    {
      if !force && !IsLoadedStateRequired() then Failure(NoLoadedState)
      else Success(core.accessors.loadedStateName)
    }

    /** `getDraftTypeName(autoCreate)`: a list keeps its plain list type unless drafts are auto-created. */
    function GetDraftTypeName(autoCreate: bool): (t: TypeName)
      ensures t.ListOf? <==> core.isList
      ensures t.ListOf? ==> t.element == (if autoCreate then core.draftElementTypeName else Named(core.elementType))
      ensures !t.ListOf? ==> t == core.draftElementTypeName
      ensures (t.DraftNamed? || (t.ListOf? && t.element.DraftNamed?)) <==> core.isAssociation && (autoCreate || !core.isList)
    {
      if core.isList && !autoCreate then core.typeName else core.draftTypeName
    }

    /** `getBoxType()`: the wrapper class of a primitive return type. */
    function GetBoxType(): (b: Option<string>)
      ensures b.Some? <==> core.decl.returnType.Primitive?
      ensures b.Some? ==> Box(core.decl.returnType) == Declared(b.value, [])
    {
      BoxTypeOf(core.decl.returnType)
    }

    /** Whether the target type lives in another micro-service than the declaring type. */
    function RemoteOf(): bool
      reads this
    {
      targetType != null && declaringType.microServiceName != targetType.microServiceName
    }

    /** The answer `isRemote()` gives: the memo if there is one, else the computed one. */
    ghost function RemoteAnswer(): bool
      reads this
    {
      if remote.Some? then remote.value else RemoteOf()
    }

    /** `isRemote()`: computed once and memoised; a remote association may not carry `@JoinSql`. */
    method IsRemote() returns (r: Result<bool, MetaError>)
      modifies this`remote
      ensures old(remote).Some? ==> r == Success(old(remote).value) && remote == old(remote)
      ensures old(remote).None? && RemoteOf() && core.decl.hasJoinSql ==> r == Failure(RemoteJoinSql) && remote == None
      ensures old(remote).None? && !(RemoteOf() && core.decl.hasJoinSql) ==> r == Success(RemoteOf()) && remote == Some(RemoteOf())
      ensures RemoteAnswer() == old(RemoteAnswer())
    {
      if remote.Some? {
        return Success(remote.value);
      }
      var computed := targetType != null && declaringType.microServiceName != targetType.microServiceName;
      if computed && core.decl.hasJoinSql {
        return Failure(RemoteJoinSql);
      }
      remote := Some(computed);
      r := Success(computed);
    }

    /**
     * The decision of `isDsl(isTableEx)` once `isRemote()` has answered `remote`.
     * A DSL member exists only for a stored property; a remote one only if it is
     * not the reverse side; in the extended table only for entity associations,
     * and a remote one only for lists; a list of entities only in the extended table.
     */
    function Dsl(isTableEx: bool, remote: bool): (r: bool)
      reads this
      ensures r ==> idViewBaseProp == null && !core.isJavaFormula && !core.isTransient
      ensures r && remote ==> !core.isReverse
      ensures r && isTableEx ==> core.isEntityAssociation && (remote ==> core.isList)
      ensures r && core.isList && core.isEntityAssociation ==> isTableEx
      ensures idViewBaseProp == null && !core.isJavaFormula && !core.isTransient && !(remote && core.isReverse) ==>
                (core.isEntityAssociation ==> r == if core.isList then isTableEx else !(remote && isTableEx))
                && (!core.isEntityAssociation ==> r == !isTableEx)
    {
      if idViewBaseProp != null || core.isJavaFormula || core.isTransient then false
      else if remote && core.isReverse then false
      else if isTableEx && !IsAssociation(true) then false
      else if remote && !core.isList && isTableEx then false
      else if core.isList && IsAssociation(true) then isTableEx
      else true
    }

    /** `isDsl(isTableEx)`, asking `isRemote()` as the source does, in its order. */
    method IsDsl(isTableEx: bool) returns (r: Result<bool, MetaError>)
      modifies this`remote
      ensures r.Success? ==> r.value == Dsl(isTableEx, old(RemoteAnswer()))
      ensures r.Failure? <==> && !(idViewBaseProp != null || core.isJavaFormula || core.isTransient)
                              && old(remote).None? && old(RemoteOf()) && core.decl.hasJoinSql
      ensures r.Failure? ==> r.error == RemoteJoinSql
      ensures RemoteAnswer() == old(RemoteAnswer())
    {
      if idViewBaseProp != null || core.isJavaFormula || core.isTransient {
        return Success(false);
      }
      var remote1 := IsRemote();
      if remote1.Failure? {
        return Failure(remote1.error);
      }
      if remote1.value && core.isReverse {
        return Success(false);
      }
      if isTableEx && !IsAssociation(true) {
        return Success(false);
      }
      var remote2 := IsRemote();
      assert remote2 == remote1;  // memoised by the first call
      if remote2.value && !core.isList && isTableEx {
        return Success(false);
      }
      if core.isList && IsAssociation(true) {
        return Success(isTableEx);
      }
      return Success(true);
    }

    /** A remote property has DSL members in no more tables than a local one would. */
    lemma RemoteNarrowsDsl(isTableEx: bool)
      ensures Dsl(isTableEx, true) ==> Dsl(isTableEx, false)
    {
    }

    /** A view of another property or a Java formula stores nothing: no value, no loaded state, no DSL member. */
    lemma ViewsStoreNothing(isTableEx: bool, remote: bool)
      requires idViewBaseProp != null || core.isJavaFormula
      ensures !IsValueRequired() && !IsLoadedStateRequired() && !Dsl(isTableEx, remote)
      ensures GetLoadedStateName(false) == Failure(NoLoadedState)
    {
    }

    /** Loaded state is only tracked for properties whose value is held. */
    lemma LoadedStateNeedsValue()
      requires manyToManyViewBaseProp == null
      ensures IsLoadedStateRequired() ==> IsValueRequired()
    {
    }

    /** `resolveTargetType`: an association learns its target type; a remote entity
        (or mapped-superclass) target needs micro-service names on both sides. */
    method ResolveTargetType(types: map<string, ImmutableType>) returns (r: Result<(), MetaError>)
      requires core.isAssociation ==> core.elementType.qualifiedName in types
      modifies this`targetType, this`remote
      ensures !core.isAssociation ==> r == Success(()) && targetType == old(targetType) && remote == old(remote)
      ensures core.isAssociation ==> targetType == types[core.elementType.qualifiedName]
      ensures RemoteAnswer() == if old(remote).Some? then old(remote).value else RemoteOf()
      ensures !(core.isAssociation && (targetType.isEntity || targetType.isMappedSuperClass)) ==>
                r == Success(()) && remote == old(remote)
      ensures core.isAssociation && (targetType.isEntity || targetType.isMappedSuperClass) ==>
                && (!RemoteAnswer() ==> r == Success(()))
                && (RemoteAnswer() && old(remote).None? && core.decl.hasJoinSql ==> r == Failure(RemoteJoinSql))
                && (RemoteAnswer() && !(old(remote).None? && core.decl.hasJoinSql) ==>
                      (r.Success? <==> declaringType.microServiceName != "" && targetType.microServiceName != "")
                      && (r.Failure? ==> r.error == RemoteEmptyMicroServiceName))
    {
      if core.isAssociation {
        targetType := types[core.elementType.qualifiedName];
        if targetType.isEntity || targetType.isMappedSuperClass {
          var isRemote := IsRemote();
          if isRemote.Failure? {
            return Failure(isRemote.error);
          }
          if isRemote.value && (declaringType.microServiceName == "" || targetType.microServiceName == "") {
            return Failure(RemoteEmptyMicroServiceName);
          }
        }
      }
      r := Success(());
    }
    /** Whether `@Formula` names dependency properties. */
    predicate HasFormulaDependencies()
    {
      core.decl.formula.Some? && core.decl.formula.value.dependencies != []
    }

    /**
     * `resolveFormulaDependencies`: every named dependency must be a property of
     * the declaring type. Each one found, in order, becomes visibility-controllable
     * (also when a later name is missing); when all are found, this property becomes
     * visibility-controllable too and its dependencies are the named properties,
     * each once, in order of first mention.
     */
    method ResolveFormulaDependencies() returns (r: Result<(), MetaError>)
      modifies this`dependencies, this`isVisibilityControllable, declaringType.props.Values`isVisibilityControllable
      ensures !HasFormulaDependencies() ==>
                && r == Success(()) && dependencies == Some([])
                && isVisibilityControllable == old(isVisibilityControllable)
                && forall p :: p in declaringType.props.Values ==> p.isVisibilityControllable == old(p.isVisibilityControllable)
      ensures HasFormulaDependencies() ==>
                var names := core.decl.formula.value.dependencies;
                var props := declaringType.props;
                var k := FirstMissing(names, props.Keys);
                && (r.Success? <==> k == |names|)
                && (r.Failure? ==> r.error == MissingFormulaDependency(names[k]) && dependencies == old(dependencies))
                && (r.Success? ==> dependencies == Some(Dedup(Lookup(props, names))))
                && (forall p :: p in props.Values ==>
                      p.isVisibilityControllable
                      == (old(p.isVisibilityControllable) || p in Lookup(props, names[..k]) || (r.Success? && p == this)))
                && isVisibilityControllable
                   == (old(isVisibilityControllable) || this in Lookup(props, names[..k]) || r.Success?)
    {
      if !HasFormulaDependencies() {
        dependencies := Some([]);
        return Success(());
      }
      var names := core.decl.formula.value.dependencies;
      var propMap := declaringType.props;
      var k, props := MarkDependencies(propMap, names);
      if k < |names| {
        return Failure(MissingFormulaDependency(names[k]));
      }
      assert names[..|names|] == names;
      isVisibilityControllable := true;
      dependencies := Some(props);
      r := Success(());
    }

    /** The name of the base property an `@IdView` designates: its argument, or,
        when that is empty, the name `defaultBasePropName` derives (if any). */
    function IdViewBaseName(defaultBasePropName: (bool, string) -> Option<string>): Option<string>
      requires core.decl.idView.Some?
    {
      if core.decl.idView.value != "" then Some(core.decl.idView.value)
      else defaultBasePropName(core.isList, core.accessors.name)
    }

    /** Whether `b` may serve as this property's id-view base: a persistent entity
        association agreeing on list-ness and nullability, with a resolved target
        whose id has this property's (boxed) type. */
    predicate SuitableIdViewBase(b: ImmutableProp)
      reads b
    {
      && b.core.isEntityAssociation && !b.core.isTransient
      && b.core.isList == core.isList && b.core.isNullable == core.isNullable
      && b.targetType != null && Box(core.elementType) == Box(b.targetType.idElementType)
    }

    /**
     * The outcome of `resolveIdViewBaseProp` in the current state: no base when
     * there is no `@IdView`, else the property the annotation designates, or the
     * first check it fails. `defaultBasePropName` stands for the naming
     * convention used when `@IdView` names no base.
     */
    function IdViewBase(defaultBasePropName: (bool, string) -> Option<string>): (r: Result<Option<ImmutableProp>, MetaError>)
      reads this, declaringType, declaringType.props.Values
      ensures core.decl.idView.None? <==> r == Success(None)
      ensures core.decl.idView.Some? ==>
                var name := IdViewBaseName(defaultBasePropName);
                var props := declaringType.props;
                && (r.Success? <==> name.Some? && name.value != core.accessors.name && name.value in props
                                    && SuitableIdViewBase(props[name.value]))
                && (r.Success? ==> r.value == Some(props[name.value]))
                && (name.None? <==> r == Failure(IdViewBaseUndetermined))
                && (name.Some? && name.value == core.accessors.name <==> r == Failure(IdViewSelfReference))
                && (name.Some? && name.value != core.accessors.name && name.value !in props ==>
                      r == Failure(IdViewMissingBase(name.value)))
      ensures core.decl.idView.Some? && IdViewBaseName(defaultBasePropName).Some? ==>
                var name := IdViewBaseName(defaultBasePropName).value;
                name != core.accessors.name && name in declaringType.props ==>
                  var b := declaringType.props[name];
                  && (!b.core.isEntityAssociation || b.core.isTransient ==> r == Failure(IdViewBaseNotPersistentAssociation))
                  && (b.core.isEntityAssociation && !b.core.isTransient && b.core.isList != core.isList ==>
                        r == Failure(IdViewListMismatch))
                  && ((b.core.isEntityAssociation && !b.core.isTransient && b.core.isList == core.isList
                       && b.core.isNullable != core.isNullable) ==> r == Failure(IdViewNullityMismatch))
                  && ((b.core.isEntityAssociation && !b.core.isTransient && b.core.isList == core.isList
                       && b.core.isNullable == core.isNullable && b.targetType != null
                       && Box(core.elementType) != Box(b.targetType.idElementType)) ==> r == Failure(IdViewIdTypeMismatch))
      ensures r.Success? && r.value.Some? ==>
                var b := r.value.value;
                && b in declaringType.props.Values && SuitableIdViewBase(b)
                && (declaringType.Valid() ==> b != this)
    {
      if core.decl.idView.None? then Success(None)
      else
        var base := IdViewBaseName(defaultBasePropName);
        if base.None? then Failure(IdViewBaseUndetermined)
        else if base.value == core.accessors.name then Failure(IdViewSelfReference)
        else if base.value !in declaringType.props then Failure(IdViewMissingBase(base.value))
        else
          var b := declaringType.props[base.value];
          if !b.IsAssociation(true) || b.core.isTransient then Failure(IdViewBaseNotPersistentAssociation)
          else if core.isList != b.core.isList then Failure(IdViewListMismatch)
          else if core.isNullable != b.core.isNullable then Failure(IdViewNullityMismatch)
          else if b.targetType == null then Failure(IdViewBaseTargetUnresolved)
          else if Box(core.elementType) != Box(b.targetType.idElementType) then Failure(IdViewIdTypeMismatch)
          else Success(Some(b))
    }

    /** `resolveIdViewBaseProp`: records the base that `IdViewBase` determines and
        makes both properties visibility-controllable; fails as it does. */
    method ResolveIdViewBaseProp(defaultBasePropName: (bool, string) -> Option<string>) returns (r: Result<(), MetaError>)
      modifies this`isVisibilityControllable, this`idViewBaseProp, declaringType.props.Values`isVisibilityControllable
      ensures var expected := old(IdViewBase(defaultBasePropName));
              && (r.Failure? <==> expected.Failure?)
              && (r.Failure? ==> r.error == expected.error)
              && (expected.Success? && expected.value.Some? ==>
                    idViewBaseProp == expected.value.value && isVisibilityControllable
                    && expected.value.value.isVisibilityControllable)
              && (!(expected.Success? && expected.value.Some?) ==>
                    idViewBaseProp == old(idViewBaseProp) && isVisibilityControllable == old(isVisibilityControllable))
              && (forall p :: p in declaringType.props.Values && p != this && expected != Success(Some(p)) ==>
                    p.isVisibilityControllable == old(p.isVisibilityControllable))
    {
      var outcome := IdViewBase(defaultBasePropName);
      if outcome.Failure? {
        return Failure(outcome.error);
      }
      if outcome.value.Some? {
        var baseProp := outcome.value.value;
        baseProp.isVisibilityControllable := true;
        isVisibilityControllable := true;
        idViewBaseProp := baseProp;
      }
      r := Success(());
    }

    /**
     * `resolve(context, step)`: step 0 resolves the target type, step 1 the
     * formula dependencies, step 2 the id-view base, each answering `true`;
     * every other step answers `false` (step 3's many-to-many view resolution
     * is not part of this model).
     */
    method Resolve(types: map<string, ImmutableType>, step: int, defaultBasePropName: (bool, string) -> Option<string>)
      returns (r: Result<bool, MetaError>)
      requires step == 0 && core.isAssociation ==> core.elementType.qualifiedName in types
      modifies this`targetType, this`remote, this`dependencies, this`isVisibilityControllable, this`idViewBaseProp
      modifies declaringType.props.Values`isVisibilityControllable
      ensures r.Success? ==> r.value == (0 <= step <= 2)
      // step 0: the target type, and the memoised remote test; nothing else changes
      ensures step == 0 ==>
                && (core.isAssociation ==> targetType == types[core.elementType.qualifiedName])
                && (!core.isAssociation ==> r == Success(true) && targetType == old(targetType))
                && RemoteAnswer() == (if old(remote).Some? then old(remote).value else RemoteOf())
                && (!(core.isAssociation && (targetType.isEntity || targetType.isMappedSuperClass)) ==>
                      r == Success(true) && remote == old(remote))
                && (core.isAssociation && (targetType.isEntity || targetType.isMappedSuperClass) ==>
                      && (!RemoteAnswer() ==> r == Success(true))
                      && (RemoteAnswer() && old(remote).None? && core.decl.hasJoinSql ==> r == Failure(RemoteJoinSql))
                      && (RemoteAnswer() && !(old(remote).None? && core.decl.hasJoinSql) ==>
                            (r.Success? <==> declaringType.microServiceName != "" && targetType.microServiceName != "")
                            && (r.Failure? ==> r.error == RemoteEmptyMicroServiceName)))
                && dependencies == old(dependencies) && idViewBaseProp == old(idViewBaseProp)
                && isVisibilityControllable == old(isVisibilityControllable)
                && forall p :: p in declaringType.props.Values ==> p.isVisibilityControllable == old(p.isVisibilityControllable)
      // step 1: the formula dependencies; the target type and the id-view base stay
      ensures step == 1 ==>
                && targetType == old(targetType) && remote == old(remote) && idViewBaseProp == old(idViewBaseProp)
                && (!HasFormulaDependencies() ==>
                      && r == Success(true) && dependencies == Some([])
                      && isVisibilityControllable == old(isVisibilityControllable)
                      && forall p :: p in declaringType.props.Values ==> p.isVisibilityControllable == old(p.isVisibilityControllable))
                && (HasFormulaDependencies() ==>
                      var names := core.decl.formula.value.dependencies;
                      var k := FirstMissing(names, declaringType.props.Keys);
                      && (r.Success? <==> k == |names|)
                      && (r.Failure? ==> r.error == MissingFormulaDependency(names[k]) && dependencies == old(dependencies))
                      && (r.Success? ==> dependencies == Some(Dedup(Lookup(declaringType.props, names))))
                      && (forall p :: p in declaringType.props.Values ==>
                            p.isVisibilityControllable
                            == (old(p.isVisibilityControllable) || p in Lookup(declaringType.props, names[..k])
                                || (r.Success? && p == this)))
                      && isVisibilityControllable
                         == (old(isVisibilityControllable) || this in Lookup(declaringType.props, names[..k]) || r.Success?))
      // step 2: the id-view base; the target type and the dependencies stay
      ensures step == 2 ==>
                var expected := old(IdViewBase(defaultBasePropName));
                && targetType == old(targetType) && remote == old(remote) && dependencies == old(dependencies)
                && (r.Failure? <==> expected.Failure?)
                && (r.Failure? ==> r.error == expected.error)
                && (expected.Success? && expected.value.Some? ==>
                      idViewBaseProp == expected.value.value && isVisibilityControllable
                      && expected.value.value.isVisibilityControllable)
                && (!(expected.Success? && expected.value.Some?) ==>
                      idViewBaseProp == old(idViewBaseProp) && isVisibilityControllable == old(isVisibilityControllable))
                && (forall p :: p in declaringType.props.Values && p != this && expected != Success(Some(p)) ==>
                      p.isVisibilityControllable == old(p.isVisibilityControllable))
      ensures !(0 <= step <= 2) ==> r == Success(false) && unchanged(this) && unchanged(declaringType.props.Values)
    {
      if step == 0 {
        var resolved := ResolveTargetType(types);
        r := if resolved.Success? then Success(true) else Failure(resolved.error);
      } else if step == 1 {
        var resolved := ResolveFormulaDependencies();
        r := if resolved.Success? then Success(true) else Failure(resolved.error);
      } else if step == 2 {
        var resolved := ResolveIdViewBaseProp(defaultBasePropName);
        r := if resolved.Success? then Success(true) else Failure(resolved.error);
      } else {
        r := Success(false);
      }
    }
  }
}
