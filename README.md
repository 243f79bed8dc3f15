# jimmer property metadata and entity events, in Dafny

This project models two parts of jimmer.

The first is `ImmutableProp`, the annotation processor's description of one
property of an immutable type. It is written in two phases, as the processor
works:

- **Construction.** A getter is accepted or rejected. When it is accepted, the
  constructor derives the property's names (`setX`, `applyX`, `addIntoX`, the
  `__xLoaded` and `__xVisible` state fields). It also derives the list shape,
  the `@Transient` resolver, the association kind and the type names the code
  generator uses. An annotation counts as `@Scalar` when `@Scalar` is reachable
  from it through meta-annotations; a depth-first search answers that question.
- **Resolution.** Later steps link the property to its target type, to the
  properties its `@Formula` depends on, and to the base association of an
  `@IdView`. These steps update the property, and the properties of its
  declaring type, in place. `isRemote()` is computed once and then memoised.

The second is `EntityEvent`, the value that reports the change of one entity:

- an insertion has no old entity;
- a deletion has no new entity;
- an update has both, of the same type and with the same id.

Modules:

- `Wrappers`: `Option` and `Result`.
- `AptTypes`: types, type names, annotations and the processor context, as plain values.
- `AccessorNames`: the naming rules of the constructor.
- `MetaAnnotations`: the `@Scalar` search.
- `PropConstruction`: the constructor. `ConstructSpec` states its outcome and `Construct` computes it step by step.
- `ImmutableProps`: the `ImmutableType` and `ImmutableProp` classes, with the memo and the resolution steps.
- `EntityEvents`: the event value.

A Java exception becomes the `Failure` of a `Result`. Its message becomes a
`MetaError` or `EventError` tag.

## Model

| member | source | states |
|---|---|---|
| AccessorNames.DeriveAccessors | project/jimmer-apt/src/main/java/org/babyfish/jimmer/apt/meta/ImmutableProp.java:108-142 | The name is never empty. The getter is bean-style exactly when it has an `is` prefix (boolean, `keepIsPrefix` off) or a `get` prefix, and it is then `is`/`get` + the capitalised name with a lower-case first letter. Otherwise the name is the getter. Setter, applier and adder are `set`/`apply`/`addInto` + the capitalised name. The loaded and visible state names follow the name. |
| AccessorNames.GetterRoundTrip | project/jimmer-apt/src/main/java/org/babyfish/jimmer/apt/meta/ImmutableProp.java:120-129 | Deriving from `get` + the capitalised form of a lower-case name gives back that name, bean-style, with setter `set` + the capitalised name. |
| AccessorNames.IsGetterRoundTrip | project/jimmer-apt/src/main/java/org/babyfish/jimmer/apt/meta/ImmutableProp.java:108-119 | For a primitive `boolean` getter `is` + the capitalised form of a lower-case name: with `keepIsPrefix` off, the derived name is that name, bean-style. With it on, the name is the getter itself and not bean-style. |
| AccessorNames.BoxedBooleanKeepsIsPrefix | project/jimmer-apt/src/main/java/org/babyfish/jimmer/apt/meta/ImmutableProp.java:108-112 | An `is` getter returning `java.lang.Boolean` rather than the primitive `boolean` keeps the `is` in its name. |
| AccessorNames.StateFieldNamesDistinct | project/jimmer-apt/src/main/java/org/babyfish/jimmer/apt/meta/ImmutableProp.java:141-142 | No loaded-state field name equals a visibility field name. Different properties get different loaded-state names and different visibility names. |
| MetaAnnotations.Search | project/jimmer-apt/src/main/java/org/babyfish/jimmer/apt/meta/ImmutableProp.java:529-544 | The handled set grows by the searched name. A `true` answer means `@Scalar` is reachable from that name. A `false` answer leaves `@Scalar` out of the newly handled names and every newly handled name with all its meta-annotations handled. |
| MetaAnnotations.ClosedSetBlocks | project/jimmer-apt/src/main/java/org/babyfish/jimmer/apt/meta/ImmutableProp.java:529-544 | A set closed under meta-annotation edges that holds the start but not the goal proves the goal unreachable. This makes a `false` answer of the search sound. |
| MetaAnnotations.SearchFresh | project/jimmer-apt/src/main/java/org/babyfish/jimmer/apt/meta/ImmutableProp.java:522 | A search from one annotation with a fresh set of handled names answers `true` exactly when `@Scalar` is reachable from it. |
| MetaAnnotations.IsExplicitScalar | project/jimmer-apt/src/main/java/org/babyfish/jimmer/apt/meta/ImmutableProp.java:520-527 | The answer is `true` exactly when `@Scalar` is reachable from some annotation of the getter. |
| PropConstruction.TransientScanFails | project/jimmer-apt/src/main/java/org/babyfish/jimmer/apt/meta/ImmutableProp.java:196-219 | The `@Transient` scan fails exactly when some `@Transient` mirror names both `value` and `ref`. |
| PropConstruction.TransientScanSingle | project/jimmer-apt/src/main/java/org/babyfish/jimmer/apt/meta/ImmutableProp.java:201-217 | With a single `@Transient` mirror, the scan's answer is whether that mirror names a `value` other than `void` or a non-empty `ref`. |
| PropConstruction.TransientScanNone | project/jimmer-apt/src/main/java/org/babyfish/jimmer/apt/meta/ImmutableProp.java:196-221 | With no `@Transient` mirror, the scan keeps its initial answer. |
| PropConstruction.ResolveTransient | project/jimmer-apt/src/main/java/org/babyfish/jimmer/apt/meta/ImmutableProp.java:192-221 | The loop over the mirrors gives the scan's outcome. |
| PropConstruction.ResolveListShape | project/jimmer-apt/src/main/java/org/babyfish/jimmer/apt/meta/ImmutableProp.java:144-181 | The list checks give the list shape, or its error, with explicit scalar status read from the meta-annotation graph. |
| PropConstruction.Construct | project/jimmer-apt/src/main/java/org/babyfish/jimmer/apt/meta/ImmutableProp.java:90-317 | The constructor's outcome, or the first exception of its own checks, equals `ConstructSpec`. That covers void return, parameters, list shape, mapped-superclass target, `@Transient`, micro-service associations and embeddable lists, and every final field except those the property descriptor and the validation messages provide. |
| PropConstruction.ConstructSpecPassed | project/jimmer-apt/src/main/java/org/babyfish/jimmer/apt/meta/ImmutableProp.java:99-244 | An accepted getter passed every check, and its metadata is assembled from the list shape and the `@Transient` scan. |
| PropConstruction.ConstructedListShape | project/jimmer-apt/src/main/java/org/babyfish/jimmer/apt/meta/ImmutableProp.java:144-190 | An accepted property is a list exactly when it returns a collection that no annotation makes scalar. A list returns a generic `List` whose first type argument is a valid, non-embeddable element type. Otherwise the element type is the return type. The element type is never a mapped superclass. |
| PropConstruction.ConstructedTransient | project/jimmer-apt/src/main/java/org/babyfish/jimmer/apt/meta/ImmutableProp.java:192-221 | On an accepted property, no `@Transient` mirror names both `value` and `ref`. A non-transient property has no resolver. With one `@Transient` mirror, there is a resolver exactly when it names `value` or `ref`. |
| PropConstruction.ConstructedKind | project/jimmer-apt/src/main/java/org/babyfish/jimmer/apt/meta/ImmutableProp.java:223-236 | A Java formula is exactly an `@Formula` with empty SQL. A reverse side is an association. In a type shared across micro-services, an entity association is transient. The names are the derived accessors. |
| ImmutableProps.BoxTypeOf | project/jimmer-apt/src/main/java/org/babyfish/jimmer/apt/meta/ImmutableProp.java:451-472 | There is a wrapper class exactly for a primitive return type, and it is the boxed type. |
| ImmutableProps.DedupIsSet | project/jimmer-apt/src/main/java/org/babyfish/jimmer/apt/meta/ImmutableProp.java:597-611 | The insertion-ordered set of dependencies holds exactly the listed properties, each once. |
| ImmutableProps.MarkDependencies | project/jimmer-apt/src/main/java/org/babyfish/jimmer/apt/meta/ImmutableProp.java:597-611 | The loop stops at the first name that is not a property. It marks exactly the properties before that point visibility-controllable and collects them once each, in order. |
| ImmutableProps.ImmutableProp.constructor | project/jimmer-apt/src/main/java/org/babyfish/jimmer/apt/meta/ImmutableProp.java:96-98 | A new property holds its constructed metadata and nothing resolved: no target, no dependencies, no view base, not visibility-controllable, no memo. |
| ImmutableProps.ImmutableProp.IsAssociation | project/jimmer-apt/src/main/java/org/babyfish/jimmer/apt/meta/ImmutableProp.java:412-414 | An association, at either level, has a declared element type. |
| ImmutableProps.ImmutableProp.IsValueRequired | project/jimmer-apt/src/main/java/org/babyfish/jimmer/apt/meta/ImmutableProp.java:424-426 | A value is held only for a property that is neither an id view, a many-to-many view nor a Java formula. |
| ImmutableProps.ImmutableProp.IsLoadedStateRequired | project/jimmer-apt/src/main/java/org/babyfish/jimmer/apt/meta/ImmutableProp.java:428-430 | Loaded state is tracked exactly for a property that is not an id view and not a Java formula, and that is nullable or returns a primitive non-list type. |
| ImmutableProps.ImmutableProp.GetLoadedStateName | project/jimmer-apt/src/main/java/org/babyfish/jimmer/apt/meta/ImmutableProp.java:356-361 | It succeeds exactly when forced or when loaded state is required, and then gives `__` + name + `Loaded`. Otherwise it fails. |
| ImmutableProps.ImmutableProp.GetDraftTypeName | project/jimmer-apt/src/main/java/org/babyfish/jimmer/apt/meta/ImmutableProp.java:375-380 | The result is a list exactly for list properties. Its element is the draft element only with auto-creation. A draft name appears exactly for associations that are non-list or auto-created. |
| ImmutableProps.ImmutableProp.GetBoxType | project/jimmer-apt/src/main/java/org/babyfish/jimmer/apt/meta/ImmutableProp.java:451-472 | The box type exists exactly for a primitive return type and is its wrapper. |
| ImmutableProps.ImmutableProp.IsRemote | project/jimmer-apt/src/main/java/org/babyfish/jimmer/apt/meta/ImmutableProp.java:502-518 | A memoised answer is returned unchanged. Otherwise the answer is whether the two sides' micro-services differ, and it is memoised. A remote `@JoinSql` fails and memoises nothing. The answer seen by callers never changes. |
| ImmutableProps.ImmutableProp.Dsl | project/jimmer-apt/src/main/java/org/babyfish/jimmer/apt/meta/ImmutableProp.java:432-449 | A DSL member exists only for a stored, non-transient, non-formula property. A remote one exists only off the reverse side. In the extended table it exists only for entity associations, and a remote one only for lists. A list of entities has one only in the extended table. Each case is characterised exactly. |
| ImmutableProps.ImmutableProp.IsDsl | project/jimmer-apt/src/main/java/org/babyfish/jimmer/apt/meta/ImmutableProp.java:432-449 | The answer is `Dsl` applied to the `isRemote()` answer. It fails exactly when a property not excluded up front (id view, Java formula, transient) meets an empty memo, a remote target and `@JoinSql`, and then with the `@JoinSql` error. The memo's meaning is unchanged. |
| ImmutableProps.ImmutableProp.RemoteNarrowsDsl | project/jimmer-apt/src/main/java/org/babyfish/jimmer/apt/meta/ImmutableProp.java:436-444 | A remote property has a DSL member only where a local one would. |
| ImmutableProps.ImmutableProp.ViewsStoreNothing | project/jimmer-apt/src/main/java/org/babyfish/jimmer/apt/meta/ImmutableProp.java:424-449 | An id view or a Java formula has no value, no loaded state, no loaded-state name unless forced, and no DSL member. |
| ImmutableProps.ImmutableProp.LoadedStateNeedsValue | project/jimmer-apt/src/main/java/org/babyfish/jimmer/apt/meta/ImmutableProp.java:424-430 | Outside many-to-many views, loaded state is only tracked for properties whose value is held. |
| ImmutableProps.ImmutableProp.ResolveTargetType | project/jimmer-apt/src/main/java/org/babyfish/jimmer/apt/meta/ImmutableProp.java:564-588 | An association gets its target type. An entity or mapped-superclass target asks `isRemote()`. A remote target fails on `@JoinSql`, and fails when either side has an empty micro-service name. Everything else succeeds, and `remote` keeps its meaning. |
| ImmutableProps.ImmutableProp.ResolveFormulaDependencies | project/jimmer-apt/src/main/java/org/babyfish/jimmer/apt/meta/ImmutableProp.java:590-615 | Without dependencies, the set is empty. Otherwise the step fails at the first name that is not a property of the declaring type. Each property named before that point becomes visibility-controllable. On success, this property does too, and its dependencies are the named properties, once each, in order. |
| ImmutableProps.ImmutableProp.IdViewBase | project/jimmer-apt/src/main/java/org/babyfish/jimmer/apt/meta/ImmutableProp.java:617-706 | There is no base exactly without `@IdView`. Otherwise the designated name is the annotation's argument, or the default name when the argument is empty. The step succeeds exactly when that name is determined, is not the property's own name, names a property of the declaring type, and that property is a suitable base. The base is then that property. Each failure has its own condition: undetermined name, self-reference, missing base, not a persistent entity association, list mismatch, nullity mismatch, id-type mismatch. A suitable base is a non-transient entity association with the same list-ness and nullability, whose target's id has this property's boxed type. |
| ImmutableProps.ImmutableProp.ResolveIdViewBaseProp | project/jimmer-apt/src/main/java/org/babyfish/jimmer/apt/meta/ImmutableProp.java:617-710 | It fails as `IdViewBase` does. Otherwise it records the base and makes both properties visibility-controllable, changing no other property. |
| ImmutableProps.ImmutableProp.Resolve | project/jimmer-apt/src/main/java/org/babyfish/jimmer/apt/meta/ImmutableProp.java:546-562 | A successful step answers `true` exactly for steps 0 to 2. Each of those steps carries the full contract of its resolution method: target type and remote test for step 0, formula dependencies and visibility marks for step 1, the id-view base for step 2. Each leaves the fields the other steps own unchanged. Every other step answers `false` and changes nothing. |
| EntityEvents.NewEntityEvent | project/jimmer-sql/src/main/java/org/babyfish/jimmer/sql/event/EntityEvent.java:14-37 | It succeeds exactly on a valid pair: at least one side, both immutable, and with two sides the same type and id. It reports both-null, type-mismatch and id-mismatch errors. |
| EntityEvents.EntityEvent.GetEventType | project/jimmer-sql/src/main/java/org/babyfish/jimmer/sql/event/EntityEvent.java:64-72 | Insert exactly without an old entity. Delete exactly with an old entity and no new one. Update exactly with both. |
| EntityEvents.EntityEvent.GetImmutableType | project/jimmer-sql/src/main/java/org/babyfish/jimmer/sql/event/EntityEvent.java:56-62 | The type is that of each side present. |
| EntityEvents.EntityEvent.GetId | project/jimmer-sql/src/main/java/org/babyfish/jimmer/sql/event/EntityEvent.java:47-54 | The id is that of each side present. |
| EntityEvents.EntityEvent.Equals | project/jimmer-sql/src/main/java/org/babyfish/jimmer/sql/event/EntityEvent.java:79-85 | Two events are equal exactly when they are the same value. |
| EntityEvents.EntityEvent.HashCode | project/jimmer-sql/src/main/java/org/babyfish/jimmer/sql/event/EntityEvent.java:74-77 | The hash is a 32-bit `int`. |
| EntityEvents.EntityEvent.HashCodeClosedForm | project/jimmer-sql/src/main/java/org/babyfish/jimmer/sql/event/EntityEvent.java:74-77 | `Objects.hash` of the two sides is `961 + 31 * h(old) + h(new)` wrapped to 32 bits, a missing side hashing to 0. |
| EntityEvents.EventKinds | project/jimmer-sql/src/main/java/org/babyfish/jimmer/sql/event/EntityEvent.java:14-72 | An accepted insertion carries its new entity, a deletion its old one, and an update one entity. The event's id and type are those of its sides. |
| EntityEvents.HashConsistent | project/jimmer-sql/src/main/java/org/babyfish/jimmer/sql/event/EntityEvent.java:74-85 | Equal events have equal hash codes. |

## Left out

- `resolveManyToManyViewProp` (resolution step 3, ImmutableProp.java:712-811) is not part of this model. `Resolve` answers `false` for step 3 without doing it, and `manyToManyViewBaseProp` is never set.
- Resolution reads the class `ViewUtils` for the default name of an id view's base. `ViewUtils` is not part of this model; its `defaultBasePropName` is the parameter `defaultBasePropName`.
- The context's type lookups are modelled as sets of qualified names: `isCollection`, `isListStrictly`, `isImmutable`, `isEntity`, `isEmbeddable` and `isMappedSuperclass`. `getImmutableType` is a map. The annotation-processing environment, the `Elements` utility and `TypeMirror` identity are not modelled.
- javapoet `TypeName`s are the tags `Named`, `DraftNamed` and `ListOf`. The generated class names, the raw element type name and `toString` are left out.
- Exception messages are tags. The element a `MetaException` points at is dropped.
- `PropDescriptor`, validation messages and the annotation accessors (`getAnnotation`, `getAnnotations`, `getAssociationAnnotation`, `getValidationMessageMap`, `toElement`) are not modelled. Nullability is an input of the constructor (`PropDecl.isNullable`) rather than derived from the descriptor.
- The plain getters (`getName`, `getSetterName`, `isList`, `isTransient` and the like) read a field and are the fields of `PropCore` and of the class.
- Annotation element values are their rendered text. `value` is compared with `void` and `ref` with the empty string, as `ImmutableProp` does.
- Case mapping is ASCII only; `Character.toLowerCase` and `toUpperCase` on other letters are not modelled.
- PropConstruction.Construct: the property descriptor is not modelled. Its builder can also reject the getter (the exception factory at ImmutableProp.java:267, the `build()` call at line 283), so `Construct` accepts getters that the descriptor's validation would reject. `isNullable` is taken as an input instead of from the descriptor, and `validationMessageMap` (line 317) is not set.
- The constructor runs in two phases: `Construct` returns the metadata or the first error, and the class constructor stores it. A rejected getter therefore never yields an object.
- AccessorNames.DeriveAccessors: requires a non-empty getter name, which a Java method always has.
- ImmutableProps.ImmutableProp.ResolveTargetType: requires that the context knows an association's target type. The context's `getImmutableType` would create or fail there, and that is not modelled.
- ImmutableProps.ImmutableProp.IdViewBase: a base association whose target type is still unresolved fails with `IdViewBaseTargetUnresolved`. `resolveIdViewBaseProp` would throw a `NullPointerException` there.
- `ImmutableType` is reduced to the fields the property consults. How it is built and how it registers its properties are outside this model, and `Valid` states what registration provides.
- EntityEvents.EntityEvent.Equals: entity equality and hashing are taken as value equality and a given `hashOf` function; `Objects.equals` on entities and their `hashCode` are not modelled further.
- EntityEvents.NewEntityEvent: an entity's id is read through its type's id property. Here it is a field of the object, and a type is known only by its qualified name.
