/**
 * The compiler-side inputs of the annotation processor's property metadata:
 * type mirrors, annotation mirrors, the declared getter and the processing
 * context, reduced to the facts that `ImmutableProp` inspects.
 */
module AptTypes {
  import opened Wrappers

  /** The primitive members of `javax.lang.model.type.TypeKind`. */
  datatype PrimitiveKind =
    | BooleanKind | CharKind | ByteKind | ShortKind
    | IntKind | LongKind | FloatKind | DoubleKind

  /** A `TypeMirror`: a primitive, `void`, a declared (class or interface) type
      with its type arguments, or anything else (array, type variable, wildcard). */
  datatype TypeRef =
    | Primitive(kind: PrimitiveKind)
    | VoidType
    | Declared(qualifiedName: string, typeArguments: seq<TypeRef>)
    | OtherType

  /** The wrapper class of a primitive kind. */
  function BoxedName(k: PrimitiveKind): string
  {
    match k
    case BooleanKind => "java.lang.Boolean"
    case CharKind => "java.lang.Character"
    case ByteKind => "java.lang.Byte"
    case ShortKind => "java.lang.Short"
    case IntKind => "java.lang.Integer"
    case LongKind => "java.lang.Long"
    case FloatKind => "java.lang.Float"
    case DoubleKind => "java.lang.Double"
  }

  /** javapoet's `TypeName.box()`: a primitive becomes its wrapper class, any other type is kept. */
  function Box(t: TypeRef): (b: TypeRef)
    ensures !b.Primitive?
    ensures !t.Primitive? ==> b == t
  {
    if t.Primitive? then Declared(BoxedName(t.kind), []) else t
  }

  /** A javapoet `TypeName`, kept as a tag: the name of a type, the name of the
      generated draft of an immutable type, or `java.util.List<element>`. */
  datatype TypeName =
    | Named(t: TypeRef)
    | DraftNamed(t: TypeRef)
    | ListOf(element: TypeName)

  /** `TypeName.isPrimitive()`. */
  predicate IsPrimitiveName(n: TypeName)
  {
    n.Named? && n.t.Primitive?
  }

  /** An `AnnotationMirror`: the qualified name of its annotation type and the
      element values written explicitly at the use site, each rendered as text. */
  datatype AnnotationMirror = AnnotationMirror(qualifiedName: string, elementValues: map<string, string>)

  /** What the reflective `@Formula` proxy answers. */
  datatype FormulaAnnotation = FormulaAnnotation(sql: string, dependencies: seq<string>)

  /** The getter (`ExecutableElement`) an immutable property is declared by.
      `isNullable` is the answer of the property descriptor built from the
      getter's annotations, which is not part of this model. */
  datatype PropDecl = PropDecl(
    simpleName: string,
    returnType: TypeRef,
    parameterCount: nat,
    mirrors: seq<AnnotationMirror>,
    formula: Option<FormulaAnnotation>,
    idView: Option<string>,
    oneToOneMappedBy: Option<string>,
    oneToManyMappedBy: Option<string>,
    manyToManyMappedBy: Option<string>,
    hasJoinSql: bool,
    isNullable: bool)

  /** The processing context: the `keepIsPrefix` option, the type classifications
      the context answers by qualified name, and for every annotation type the
      qualified names of the annotations that decorate it (its meta-annotations). */
  datatype Context = Context(
    keepIsPrefix: bool,
    collectionTypes: set<string>,
    listTypes: set<string>,
    immutableTypes: set<string>,
    entityTypes: set<string>,
    embeddableTypes: set<string>,
    mappedSuperclassTypes: set<string>,
    metaAnnotations: map<string, seq<string>>)

  /** Whether the context classifies a type into one of its sets; only declared types are classified. */
  predicate Classified(t: TypeRef, names: set<string>)
  {
    t.Declared? && t.qualifiedName in names
  }

  const TransientName: string := "org.babyfish.jimmer.sql.Transient"
  const ScalarName: string := "org.babyfish.jimmer.Scalar"

  /** The `MetaException`s raised while building and resolving property metadata,
      and the `IllegalStateException` of `getLoadedStateName`. */
  datatype MetaError =
    | ReturnsVoid
    | HasParameters
    | CollectionNotList
    | ListNotGeneric
    | InvalidListElement
    | MappedSuperclassTarget
    | TransientValueAndRef
    | AssociationAcrossMicroServices
    | EmbeddableList
    | RemoteJoinSql
    | RemoteEmptyMicroServiceName
    | MissingFormulaDependency(dependency: string)
    | IdViewBaseUndetermined
    | IdViewSelfReference
    | IdViewMissingBase(base: string)
    | IdViewBaseNotPersistentAssociation
    | IdViewListMismatch
    | IdViewNullityMismatch
    | IdViewBaseTargetUnresolved
    | IdViewIdTypeMismatch
    | NoLoadedState
}
