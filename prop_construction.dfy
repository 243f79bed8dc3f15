/**
 * The constructor of `ImmutableProp`: it rejects illegal getters and computes
 * every final field of the property's metadata. `ConstructSpec` states the
 * outcome as a function of the getter and the context; `Construct` computes it
 * step by step in the constructor's order, with its loops over annotations.
 */
module PropConstruction {
  import opened Wrappers
  import opened AptTypes
  import opened AccessorNames
  import opened MetaAnnotations

  /** The final fields of a constructed property. */
  datatype PropCore = PropCore(
    decl: PropDecl,
    accessors: Accessors,
    isList: bool,
    elementType: TypeRef,
    isTransient: bool,
    hasTransientResolver: bool,
    isJavaFormula: bool,
    isAssociation: bool,
    isEntityAssociation: bool,
    isNullable: bool,
    isReverse: bool,
    elementTypeName: TypeName,
    typeName: TypeName,
    draftElementTypeName: TypeName,
    draftTypeName: TypeName)

  /** The relations between the final fields that every constructed property keeps. */
  predicate Coherent(c: PropCore)
  {
    && c.elementTypeName == Named(c.elementType)
    && c.typeName == (if c.isList then ListOf(c.elementTypeName) else c.elementTypeName)
    && c.draftElementTypeName == (if c.isAssociation then DraftNamed(c.elementType) else c.elementTypeName)
    && c.draftTypeName == (if c.isList then ListOf(c.draftElementTypeName) else c.draftElementTypeName)
    && (c.isAssociation || c.isEntityAssociation ==> c.elementType.Declared?)
    && (c.isReverse ==> c.isAssociation)
    && (!c.isTransient ==> !c.hasTransientResolver)
    && c.isNullable == c.decl.isNullable
    && c.accessors.name != ""
    && c.accessors.loadedStateName == LoadedStateNameOf(c.accessors.name)
    && c.accessors.visibleName == VisibleNameOf(c.accessors.name)
  }

  /** The metadata of a property the constructor accepted. */
  type PropMeta = c: PropCore | Coherent(c)
    witness PropCore(
      PropDecl("a", OtherType, 0, [], None, None, None, None, None, false, false),
      Accessors("a", "setA", "applyA", "addIntoA", false, "__aLoaded", "__aVisible"),
      false, OtherType, false, false, false, false, false, false, false,
      Named(OtherType), Named(OtherType), Named(OtherType), Named(OtherType))

  function MirrorNames(mirrors: seq<AnnotationMirror>): (names: seq<string>)
    ensures |names| == |mirrors|
    ensures forall k :: 0 <= k < |mirrors| ==> names[k] == mirrors[k].qualifiedName
  {
    seq(|mirrors|, k requires 0 <= k < |mirrors| => mirrors[k].qualifiedName)
  }

  /** `getAnnotation(Transient.class) != null`. */
  predicate HasTransient(mirrors: seq<AnnotationMirror>)
  {
    exists k :: 0 <= k < |mirrors| && mirrors[k].qualifiedName == TransientName
  }

  /** `@Transient(value = ...)` names a resolver class other than `void`. */
  predicate HasValue(m: AnnotationMirror)
  {
    "value" in m.elementValues && m.elementValues["value"] != "void"
  }

  /** `@Transient(ref = ...)` names a resolver bean. */
  predicate HasRef(m: AnnotationMirror)
  {
    "ref" in m.elementValues && m.elementValues["ref"] != ""
  }

  /** The walk over the getter's annotations: each `@Transient` mirror either
      fails (both `value` and `ref`) or decides whether there is a resolver;
      `acc` is the answer so far. */
  function TransientScan(mirrors: seq<AnnotationMirror>, acc: bool): Result<bool, MetaError>
  {
    if mirrors == [] then Success(acc)
    else if mirrors[0].qualifiedName == TransientName then
      if HasValue(mirrors[0]) && HasRef(mirrors[0]) then Failure(TransientValueAndRef)
      else TransientScan(mirrors[1..], HasValue(mirrors[0]) || HasRef(mirrors[0]))
    else TransientScan(mirrors[1..], acc)
  }

  /** The scan fails exactly when some `@Transient` mirror specifies both `value` and `ref`. */
  lemma {:induction false} TransientScanFails(mirrors: seq<AnnotationMirror>, acc: bool)
    ensures TransientScan(mirrors, acc).Failure? <==>
            exists k :: 0 <= k < |mirrors| && mirrors[k].qualifiedName == TransientName
                        && HasValue(mirrors[k]) && HasRef(mirrors[k])
    ensures TransientScan(mirrors, acc).Failure? ==> TransientScan(mirrors, acc).error == TransientValueAndRef
  {
    if mirrors != [] {
      var m := mirrors[0];
      if !(m.qualifiedName == TransientName && HasValue(m) && HasRef(m)) {
        var next := if m.qualifiedName == TransientName then HasValue(m) || HasRef(m) else acc;
        TransientScanFails(mirrors[1..], next);
        assert forall k :: 0 < k < |mirrors| ==> mirrors[k] == mirrors[1..][k - 1];
        assert forall k :: 0 <= k < |mirrors| - 1 ==> mirrors[1..][k] == mirrors[k + 1];
      }
    }
  }

  /** With one `@Transient` mirror, there is a resolver iff it names `value` or `ref`. */
  lemma {:induction false} TransientScanSingle(mirrors: seq<AnnotationMirror>, k: nat, acc: bool)
    requires k < |mirrors| && mirrors[k].qualifiedName == TransientName
    requires forall j :: 0 <= j < |mirrors| && j != k ==> mirrors[j].qualifiedName != TransientName
    requires !(HasValue(mirrors[k]) && HasRef(mirrors[k]))
    ensures TransientScan(mirrors, acc) == Success(HasValue(mirrors[k]) || HasRef(mirrors[k]))
  {
    if k == 0 {
      TransientScanNone(mirrors[1..], HasValue(mirrors[0]) || HasRef(mirrors[0]));
    } else {
      TransientScanSingle(mirrors[1..], k - 1, acc);
    }
  }

  /** Without `@Transient` mirrors the answer so far is kept. */
  lemma {:induction false} TransientScanNone(mirrors: seq<AnnotationMirror>, acc: bool)
    requires forall j :: 0 <= j < |mirrors| ==> mirrors[j].qualifiedName != TransientName
    ensures TransientScan(mirrors, acc) == Success(acc)
  {
    if mirrors != [] {
      TransientScanNone(mirrors[1..], acc);
    }
  }

  /** The loop of the constructor over the getter's annotation mirrors. */
  method ResolveTransient(mirrors: seq<AnnotationMirror>) returns (r: Result<bool, MetaError>)
    ensures r == TransientScan(mirrors, false)
  {
    var hasResolver := false;
    for i := 0 to |mirrors|
      invariant TransientScan(mirrors[i..], hasResolver) == TransientScan(mirrors, false)
    {
      assert mirrors[i..][1..] == mirrors[i + 1..];
      var mirror := mirrors[i];
      if mirror.qualifiedName == TransientName {
        var hasValue := HasValue(mirror);
        var hasRef := HasRef(mirror);
        if hasValue && hasRef {
          return Failure(TransientValueAndRef);
        }
        hasResolver := hasValue || hasRef;
      }
    }
    assert mirrors[|mirrors|..] == [];
    return Success(hasResolver);
  }

  /** Whether a list property's element type is acceptable: a primitive, or a
      class or interface used without type arguments. */
  predicate ValidListElement(e: TypeRef)
  {
    e.Primitive? || (e.Declared? && e.typeArguments == [])
  }

  /** Whether the property is a list, and its element type. */
  function ListShape(ctx: Context, returnType: TypeRef, explicitScalar: bool): Result<(bool, TypeRef), MetaError>
  {
    if Classified(returnType, ctx.collectionTypes) && !explicitScalar then
      if !Classified(returnType, ctx.listTypes) then Failure(CollectionNotList)
      else if returnType.typeArguments == [] then Failure(ListNotGeneric)
      else if !ValidListElement(returnType.typeArguments[0]) then Failure(InvalidListElement)
      else Success((true, returnType.typeArguments[0]))
    else Success((false, returnType))
  }

  /** `isExplicitScalar()`, as a statement about the meta-annotation graph. */
  ghost predicate ExplicitScalar(ctx: Context, decl: PropDecl)
  {
    var names := MirrorNames(decl.mirrors);
    exists k :: 0 <= k < |names| && Reaches(ctx.metaAnnotations, names[k], ScalarName)
  }

  predicate NonEmptyMappedBy(mappedBy: Option<string>)
  {
    mappedBy.Some? && mappedBy.value != ""
  }

  /** The final fields once every check has passed. */
  function Assemble(ctx: Context, decl: PropDecl, isList: bool, elementType: TypeRef,
                    isTransient: bool, hasTransientResolver: bool): PropMeta
    requires decl.simpleName != ""
    requires !isTransient ==> !hasTransientResolver
  {
    var isAssociation := Classified(elementType, ctx.immutableTypes);
    var accessors := DeriveAccessors(decl.simpleName, ctx.keepIsPrefix, decl.returnType);
    var elementTypeName := Named(elementType);
    var draftElementTypeName := if isAssociation then DraftNamed(elementType) else elementTypeName;
    var core := PropCore(
      decl,
      accessors,
      isList,
      elementType,
      isTransient,
      hasTransientResolver,
      decl.formula.Some? && decl.formula.value.sql == "",
      isAssociation,
      Classified(elementType, ctx.entityTypes),
      decl.isNullable,
      isAssociation && (NonEmptyMappedBy(decl.oneToOneMappedBy)
                        || NonEmptyMappedBy(decl.oneToManyMappedBy)
                        || NonEmptyMappedBy(decl.manyToManyMappedBy)),
      elementTypeName,
      if isList then ListOf(elementTypeName) else elementTypeName,
      draftElementTypeName,
      if isList then ListOf(draftElementTypeName) else draftElementTypeName);
    assert accessors.name != "" && accessors.loadedStateName == LoadedStateNameOf(accessors.name);
    core
  }

  /** The constructed metadata, or the first exception the constructor throws. */
  ghost function ConstructSpec(ctx: Context, acrossMicroServices: bool, decl: PropDecl): Result<PropMeta, MetaError>
    requires decl.simpleName != ""
  {
    if decl.returnType == VoidType then Failure(ReturnsVoid)
    else if decl.parameterCount != 0 then Failure(HasParameters)
    else
      match ListShape(ctx, decl.returnType, ExplicitScalar(ctx, decl))
      case Failure(e) => Failure(e)
      case Success((isList, elementType)) =>
        if Classified(elementType, ctx.mappedSuperclassTypes) then Failure(MappedSuperclassTarget)
        else
          var isTransient := HasTransient(decl.mirrors);
          var resolver := if isTransient then TransientScan(decl.mirrors, false) else Success(false);
          if resolver.Failure? then Failure(resolver.error)
          else
            var isAssociation := Classified(elementType, ctx.immutableTypes);
            var isEntityAssociation := Classified(elementType, ctx.entityTypes);
            if acrossMicroServices && isAssociation && isEntityAssociation && !isTransient then
              Failure(AssociationAcrossMicroServices)
            else if isList && Classified(elementType, ctx.embeddableTypes) then Failure(EmbeddableList)
            else Success(Assemble(ctx, decl, isList, elementType, isTransient, resolver.value))
  }

  /** The constructor's list checks: a collection return type that no annotation
      makes scalar must be a generic list of a valid element type. */
  method ResolveListShape(ctx: Context, decl: PropDecl) returns (r: Result<(bool, TypeRef), MetaError>)
    ensures r == ListShape(ctx, decl.returnType, ExplicitScalar(ctx, decl))
  {
    var returnType := decl.returnType;
    var scalar := false;
    if Classified(returnType, ctx.collectionTypes) {
      scalar := IsExplicitScalar(ctx.metaAnnotations, MirrorNames(decl.mirrors));
    }
    if Classified(returnType, ctx.collectionTypes) && !scalar {
      if !Classified(returnType, ctx.listTypes) {
        return Failure(CollectionNotList);
      }
      var typeArguments := returnType.typeArguments;
      if typeArguments == [] {
        return Failure(ListNotGeneric);
      }
      var elementType := typeArguments[0];
      var isElementTypeValid := false;
      if elementType.Primitive? {
        isElementTypeValid := true;
      } else if elementType.Declared? {
        isElementTypeValid := elementType.typeArguments == [];
      }
      if !isElementTypeValid {
        return Failure(InvalidListElement);
      }
      return Success((true, elementType));
    }
    return Success((false, returnType));
  }

  /** The constructor, in its own order of checks and assignments. */
  method Construct(ctx: Context, acrossMicroServices: bool, decl: PropDecl) returns (r: Result<PropMeta, MetaError>)
    requires decl.simpleName != ""
    ensures r == ConstructSpec(ctx, acrossMicroServices, decl)
  {
    var returnType := decl.returnType;
    if returnType == VoidType {
      return Failure(ReturnsVoid);
    }
    if decl.parameterCount != 0 {
      return Failure(HasParameters);
    }
    var accessors := DeriveAccessors(decl.simpleName, ctx.keepIsPrefix, returnType);

    var shape := ResolveListShape(ctx, decl);
    if shape.Failure? {
      return Failure(shape.error);
    }
    var (isList, elementType) := shape.value;

    if Classified(elementType, ctx.mappedSuperclassTypes) {
      return Failure(MappedSuperclassTarget);
    }

    var isTransient := HasTransient(decl.mirrors);
    var hasResolver := false;
    if isTransient {
      var resolved := ResolveTransient(decl.mirrors);
      if resolved.Failure? {
        return Failure(resolved.error);
      }
      hasResolver := resolved.value;
    }

    var isJavaFormula := decl.formula.Some? && decl.formula.value.sql == "";

    var isAssociation := Classified(elementType, ctx.immutableTypes);
    if acrossMicroServices && isAssociation && Classified(elementType, ctx.entityTypes) && !isTransient {
      return Failure(AssociationAcrossMicroServices);
    }
    var isEntityAssociation := Classified(elementType, ctx.entityTypes);
    if isList && Classified(elementType, ctx.embeddableTypes) {
      return Failure(EmbeddableList);
    }

    var elementTypeName := Named(elementType);
    var typeName := if isList then ListOf(elementTypeName) else elementTypeName;

    var isReverse := false;
    if isAssociation {
      isReverse := NonEmptyMappedBy(decl.oneToOneMappedBy)
                   || NonEmptyMappedBy(decl.oneToManyMappedBy)
                   || NonEmptyMappedBy(decl.manyToManyMappedBy);
    }

    var draftElementTypeName := elementTypeName;
    if isAssociation {
      draftElementTypeName := DraftNamed(elementType);
    }
    var draftTypeName := if isList then ListOf(draftElementTypeName) else draftElementTypeName;

    var core := PropCore(
      decl, accessors, isList, elementType, isTransient, hasResolver, isJavaFormula,
      isAssociation, isEntityAssociation, decl.isNullable, isReverse,
      elementTypeName, typeName, draftElementTypeName, draftTypeName);
    assert core == Assemble(ctx, decl, isList, elementType, isTransient, hasResolver);
    r := Success(core);
  }

  /** An accepted getter passed every check of the constructor, and its metadata
      is assembled from the list shape and the `@Transient` scan. */
  lemma ConstructSpecPassed(ctx: Context, acrossMicroServices: bool, decl: PropDecl)
    returns (isList: bool, elementType: TypeRef, resolver: bool)
    requires decl.simpleName != ""
    requires ConstructSpec(ctx, acrossMicroServices, decl).Success?
    ensures decl.returnType != VoidType && decl.parameterCount == 0
    ensures ListShape(ctx, decl.returnType, ExplicitScalar(ctx, decl)) == Success((isList, elementType))
    ensures !Classified(elementType, ctx.mappedSuperclassTypes)
    ensures HasTransient(decl.mirrors) ==> TransientScan(decl.mirrors, false) == Success(resolver)
    ensures !HasTransient(decl.mirrors) ==> !resolver
    ensures !(acrossMicroServices && Classified(elementType, ctx.immutableTypes)
              && Classified(elementType, ctx.entityTypes) && !HasTransient(decl.mirrors))
    ensures !(isList && Classified(elementType, ctx.embeddableTypes))
    ensures ConstructSpec(ctx, acrossMicroServices, decl).value
            == Assemble(ctx, decl, isList, elementType, HasTransient(decl.mirrors), resolver)
  {
    var shape := ListShape(ctx, decl.returnType, ExplicitScalar(ctx, decl));
    isList, elementType := shape.value.0, shape.value.1;
    var isTransient := HasTransient(decl.mirrors);
    var scan := if isTransient then TransientScan(decl.mirrors, false) else Success(false);
    resolver := scan.value;
  }

  /** What a constructed property says about lists: it is a list exactly when the
      getter returns a collection that no annotation makes scalar; a list returns
      a generic list type whose first type argument is a valid element type, and
      any other property's element type is its return type. */
  lemma ConstructedListShape(ctx: Context, acrossMicroServices: bool, decl: PropDecl)
    requires decl.simpleName != ""
    requires ConstructSpec(ctx, acrossMicroServices, decl).Success?
    ensures var core := ConstructSpec(ctx, acrossMicroServices, decl).value;
            && (core.isList <==> Classified(decl.returnType, ctx.collectionTypes) && !ExplicitScalar(ctx, decl))
            && (core.isList ==> Classified(decl.returnType, ctx.listTypes)
                                && decl.returnType.typeArguments != []
                                && core.elementType == decl.returnType.typeArguments[0]
                                && ValidListElement(core.elementType)
                                && !Classified(core.elementType, ctx.embeddableTypes))
            && (!core.isList ==> core.elementType == decl.returnType)
            && !Classified(core.elementType, ctx.mappedSuperclassTypes)
  {
    var isList, elementType, resolver := ConstructSpecPassed(ctx, acrossMicroServices, decl);
  }

  /** What a constructed property says about `@Transient`: no `@Transient` mirror
      names both `value` and `ref`; a property that is not transient has no
      resolver, and with a single `@Transient` mirror there is a resolver iff it
      names `value` or `ref`. */
  lemma ConstructedTransient(ctx: Context, acrossMicroServices: bool, decl: PropDecl)
    requires decl.simpleName != ""
    requires ConstructSpec(ctx, acrossMicroServices, decl).Success?
    ensures var core := ConstructSpec(ctx, acrossMicroServices, decl).value;
            && (forall k :: 0 <= k < |decl.mirrors| && decl.mirrors[k].qualifiedName == TransientName ==>
                  !(HasValue(decl.mirrors[k]) && HasRef(decl.mirrors[k])))
            && (!core.isTransient ==> !core.hasTransientResolver)
            && (forall k :: 0 <= k < |decl.mirrors| && decl.mirrors[k].qualifiedName == TransientName
                  && (forall j :: 0 <= j < |decl.mirrors| && j != k ==> decl.mirrors[j].qualifiedName != TransientName)
                  ==> core.hasTransientResolver == (HasValue(decl.mirrors[k]) || HasRef(decl.mirrors[k])))
  {
    var core := ConstructSpec(ctx, acrossMicroServices, decl).value;
    var isList, elementType, resolver := ConstructSpecPassed(ctx, acrossMicroServices, decl);
    if core.isTransient {
      TransientScanFails(decl.mirrors, false);
      forall k | 0 <= k < |decl.mirrors| && decl.mirrors[k].qualifiedName == TransientName
                 && (forall j :: 0 <= j < |decl.mirrors| && j != k ==> decl.mirrors[j].qualifiedName != TransientName)
        ensures core.hasTransientResolver == (HasValue(decl.mirrors[k]) || HasRef(decl.mirrors[k]))
      {
        TransientScanSingle(decl.mirrors, k, false);
      }
    }
  }

  /** What a constructed property says about its kind: a Java formula has an empty
      SQL text, a reverse (`mappedBy`) side is an association, a type shared across
      micro-services only keeps entity associations that are transient, and the
      names follow the getter. */
  lemma ConstructedKind(ctx: Context, acrossMicroServices: bool, decl: PropDecl)
    requires decl.simpleName != ""
    requires ConstructSpec(ctx, acrossMicroServices, decl).Success?
    ensures var core := ConstructSpec(ctx, acrossMicroServices, decl).value;
            && (core.isJavaFormula <==> decl.formula.Some? && decl.formula.value.sql == "")
            && (core.isReverse ==> core.isAssociation)
            && (acrossMicroServices && core.isAssociation && core.isEntityAssociation ==> core.isTransient)
            && core.accessors == DeriveAccessors(decl.simpleName, ctx.keepIsPrefix, decl.returnType)
  {
    var isList, elementType, resolver := ConstructSpecPassed(ctx, acrossMicroServices, decl);
  }
}
