# A verified model of wasm-tools

This project models the parts of the wasm-tools repository whose correctness depends on several
pieces of code agreeing with each other, and proves what they promise. `dafny verify
dfyconfig.toml` checks all of it.

| files | what they model |
|---|---|
| `TypeTable`, `Subtyping`, `TypeChoosers`, `TypeGenerator` | wasm-smith's table of GC types: the subtype relation, the side tables, the choosers of subtypes and supertypes, and the generator |
| `ConstExpr`, `Segments` | wasm-smith's extended constant expressions and in-bounds segments |
| `ComponentFuncs` | wasm-smith's component functions, lifted and lowered |
| `CompositionGraph`, `Composer` | wasm-compose's graph and the work list that fills it |
| `ImportOrder`, `GraphImports`, `GraphEncoder` | wasm-compose's encoder: imports and their order, instantiations and arguments |
| `ComponentTypes`, `TypeScopes`, `Translation`, `TypeEncoder`, `TypeOrder`, `TypeMeaning`, `TypeImports`, `TypeReuse` | wasm-compose's translation of component types with caches, scopes and aliases: as functions, as methods, what it means, and which items references lead to |
| `ImportDeps`, `ImportWalk`, `ImportMerge`, `ImportPlan`, `TypeExamples` | wasm-compose's imports with their types, from beginning to end: registering dependencies, merging, sorting, translating |
| `Producers`, `Metadata`, `MetadataRewrite`, `MetadataRoundTrip` | wasm-metadata's reader and streaming rewriter |
| `Shrink` | wasm-shrink's search |
| `BlockTree`, `Regions`, `ElseRegions`, `Liveness`, `Resume`, `Scans` | wasm-migrate's regions and liveness for checkpoints |

Code that updates objects or loops over buffers is modelled by classes and methods with loops;
each is tied to a function on values, and the properties are proved of those functions or
stated in the methods' contracts. Fuzzer input, random choices, the file system, the graph
library, hashing, the predicate to shrink against and the comparison of component types are
parameters or nondeterministic choices, so the results hold for all of them.

Where the code is followed and a promise turns out not to hold for all inputs, the exact
condition is proved, or a condition under which it holds and an input for which it does not:

- `disconnect` removes the mark of an import whichever source is named. The graph stays exact if
  and only if the import was free or the named source supplies it (`DisconnectedKeeps`,
  `WrongDisconnectDuplicates`).
- The debug assertion of `on_new_best` fails if and only if an empty result is accepted for an
  8-byte input that is not the empty module, such as the empty component (`Shrink.ShrinkRun.Run`).
- Registering the dependencies between imports asserts that a type is created once. If no name
  stands for a type that creates others, the assertion holds if and only if no type is created
  after the walk through the imports has met it (`RegistersIff`); for all other components that is
  sufficient (`FreshRegisters`). It fails whenever an instance type that exports types is met twice,
  not both times by a name (`MetTwice`).
- Leaving an instance body registers its exported types for the instance that is declared next in
  the scope around it, and asserts that they are new there. After an instance type was named, an
  alias to a type it creates is right if and only if the next imported instance exports that type
  under the same name (`NextInstanceDecides`). The translation means what the source means if
  whenever an instance type is only named the next instance declared is one of it, and nothing
  declared before that refers to what it creates (`TypeOrder.Timely`); this always holds if no name
  stands for an instance type that exports types (`NoNamesInOrder`). The assertion of the
  translation then cannot fail, because registering, which comes first, fails for the inputs that
  would make it (`RegisteredNoClash`), and every component gets what it expects (`EncodeImports`).
  Otherwise, though registered, types can silently be mixed up (`NamedTooEarly`) or the assertion
  of the translation can fail (`NamedTwiceFails`).
- The search for an order of the imports ends if dependencies have no cycles, which is so if the
  components agree on some order of the names they import (`OneOrderAcyclic`). Two components that
  import the same two instances in opposite orders can make a cycle (`OppositeOrders`).
- The scans for locals start at the declarations of locals and not at the first operator. They find
  the locals of the body if they are in step with it, which is if and only if reading from the
  first byte stops at the first operator (`ReachedBodyIsLive`); otherwise locals can be lost
  (`LocalIsLost`).
- `else` opens a node without closing the one of its `if`. The final assertion holds if and only
  if there is at most one `else`, the regions are right if and only if there is none
  (`StackEndsEmpty`, `RegionsReproduceBodyIff`).
- The chooser of subtypes offers all subtypes but those more than one declared step away and
  `noexn`; the chooser of supertypes offers `cont` for `nocont`, which the relation does not have.
- A function type imported from an example module gets an arbitrary sharedness; the table stays
  valid if and only if a shared one has only shared parts (`AddExampleFuncType`,
  `SharedOverUnshared`).
- The rewriter decides about `homepage` and `revision` by whether a new `source` is given, keeps an
  old text section when a new one is appended, and relies on the last one being read; the round
  trip holds all the same.
- The composer queues every import of an instance and not only instances. Processing one of another
  kind panics if and only if the instance it asks for is there or can be had (`ProcessInstance`).
  Building never panics this way if only instances are imported, and always if the first import of
  the root is of another kind and can be met (`Build`, `ComposeFunctionImport`).

## Model

| member | source | states |
|---|---|---|
| `Subtyping.SubtypingIsPartialOrder` | crates/wasm-smith/src/core.rs:472-559 | On every valid type table heap, reference and value subtyping are reflexive, transitive and antisymmetric |
| `Subtyping.HeapSubIsMatching` | crates/wasm-smith/src/core.rs:493-559 | The decided relation holds exactly when it can be derived by the matching rules of section 3.3 of the WebAssembly Core Specification 3.0: soundness and completeness |
| `Subtyping.ValSubIsMatching` | crates/wasm-smith/src/core.rs:472-491 | The same for references and values: a reference that may be null matches only one that may be, numbers and vectors only themselves |
| `Subtyping.StorageSubIsMatching` | crates/wasm-smith/src/core.rs:742-755 | The same for packed and unpacked storage types |
| `Subtyping.FieldSubIsMatching` | crates/wasm-smith/src/core.rs:742-755 | The same for fields: constant ones covariant, variable ones in both directions |
| `Subtyping.CompositeSubIsMatching` | crates/wasm-smith/src/core.rs:699-722 | The same for arrays, structs and functions, so that what a declared subtype satisfies is what the standard derives |
| `Subtyping.ValidChainsDown` | crates/wasm-smith/src/core.rs:576-600 | In a valid table every supertype chain goes down to smaller indices, so walking it ends |
| `Subtyping.ChainKeepsShape` | crates/wasm-smith/src/core.rs:493-559 | Kind and sharedness are constant along every supertype chain |
| `Subtyping.ChainMatches` | crates/wasm-smith/src/core.rs:699-722 | Along a whole chain, not only one link, the composite types match structurally: struct width and depth, mutable fields invariant, parameters contravariant, results covariant |
| `Subtyping.DeclOkGrows` | crates/wasm-smith/src/core.rs:576-600 | A declaration that is fine stays fine under every later addition |
| `TypeChoosers.KindListsPartition` | crates/wasm-smith/src/core.rs:576-600 | The array, function and struct lists together hold every type index exactly once |
| `TypeChoosers.SuperToSubIsInverse` | crates/wasm-smith/src/core.rs:576-600 | The map from supertypes to subtypes is exactly the inverse of the declared supertypes |
| `TypeChoosers.AddKeepsConsistent` | crates/wasm-smith/src/core.rs:576-600 | Adding any type keeps all side tables in agreement with the types |
| `TypeChoosers.MatchingChoicesExact` | crates/wasm-smith/src/core.rs:791-873 | A candidate is offered exactly if it is a subtype, except concrete types more than one declared step below and the type `noexn` below `exn`, which are never offered |
| `TypeChoosers.SuperChoicesExact` | crates/wasm-smith/src/core.rs:926-1017 | A candidate is offered exactly if it is a supertype, plus the one pair that the relation does not have: `cont` for `nocont` |
| `TypeChoosers.HeapSubSameSharedness` | crates/wasm-smith/src/core.rs:493-559 | Subtypes are shared exactly if their supertypes are |
| `TypeGenerator.TilesCover` | crates/wasm-smith/src/core.rs:602-671 | The rec groups tile the table: each type is in exactly one |
| `TypeGenerator.TilesBefore` | crates/wasm-smith/src/core.rs:643-671 | A rec group picked for cloning lies inside the table and behind all earlier groups |
| `TypeGenerator.GoodTableIsValid` | crates/wasm-smith/src/core.rs:561-574 | What the generator keeps is a valid table in the sense of all subtyping results |
| `TypeGenerator.Module.HeapTypeIsSubType` | crates/wasm-smith/src/core.rs:493-559 | The walk along supertypes decides the relation, both answers |
| `TypeGenerator.Module.RefTypeIsSubType` | crates/wasm-smith/src/core.rs:481-491 | Decides reference subtyping, which is what the standard derives: heap types match, and null only under null |
| `TypeGenerator.Module.ValTypeIsSubType` | crates/wasm-smith/src/core.rs:472-478 | Decides value subtyping, which is what the standard derives: references as above, and equality otherwise |
| `TypeGenerator.Module.AddType` | crates/wasm-smith/src/core.rs:576-600 | The types and all side tables after an addition, from those before |
| `TypeGenerator.Module.SuperTypeList` | crates/wasm-smith/src/core.rs:926-1017 | The loop over the supertype chain collects exactly the supertype candidates |
| `TypeGenerator.Module.ArbitraryMatchingHeapType` | crates/wasm-smith/src/core.rs:791-873 | Whatever is drawn is a subtype, exists in the table and is as shared |
| `TypeGenerator.Module.ArbitrarySuperTypeOfHeapType` | crates/wasm-smith/src/core.rs:926-1017 | Whatever is drawn is a supertype, exists in the table and is as shared |
| `TypeGenerator.Module.ArbitraryMatchingValType` | crates/wasm-smith/src/core.rs:769-782 | Whatever is drawn is a subtype and as shared |
| `TypeGenerator.Module.ArbitrarySuperTypeOfValType` | crates/wasm-smith/src/core.rs:894-907 | Whatever is drawn is a supertype and as shared |
| `TypeGenerator.Module.ArbitraryMatchingFieldType` | crates/wasm-smith/src/core.rs:742-755 | The new field matches the old one: mutable fields invariant, others covariant |
| `TypeGenerator.Module.ArbitraryMatchingStructType` | crates/wasm-smith/src/core.rs:724-740 | Every old field is matched in place and at most five fields are added |
| `TypeGenerator.Module.ArbitraryMatchingFuncType` | crates/wasm-smith/src/core.rs:875-892 | Same arity, parameters contravariant, results covariant |
| `TypeGenerator.Module.ArbitraryCompositeType` | crates/wasm-smith/src/core.rs:1019-1047 | A shared type only refers to shared types, and the flag that forces sharing is reset on every path |
| `TypeGenerator.Module.ArbitraryHeapType` | crates/wasm-smith/src/core.rs:1086-1127 | A concrete reference points to a type already in the table, and is shared when sharing is forced |
| `TypeGenerator.Module.ArbitrarySubTypeOfSuperType` | crates/wasm-smith/src/core.rs:699-722 | The new type declares a non-final supertype below it that it matches, of the same kind and sharedness |
| `TypeGenerator.Module.ArbitrarySubType` | crates/wasm-smith/src/core.rs:673-697 | Every type generated may be added to the table |
| `TypeGenerator.Module.ArbitraryRecGroup` | crates/wasm-smith/src/core.rs:602-641 | Each turn appends one group of valid types or changes nothing |
| `TypeGenerator.Module.CloneRecGroup` | crates/wasm-smith/src/core.rs:643-671 | The appended types are a copy of an existing group, still valid at their new indices |
| `TypeGenerator.Module.ArbitraryTypes` | crates/wasm-smith/src/core.rs:561-574 | After any number of turns on any input the table is valid, never shrinks and stays within the limit; leaving the first loop normally means that the minimum is reached |
| `TypeGenerator.Module.AddExampleFuncType` | crates/wasm-smith/src/core.rs:1463-1467 | A function type taken over from an example module keeps the table valid exactly if, when shared, all its parameters and results are |
| `TypeGenerator.SharedOverUnshared` | crates/wasm-smith/src/core.rs:1463-1467 | A concrete type that breaks validity: shared, in an empty table, with one parameter of type unshared `funcref` |
| `ConstExpr.ArbitraryExtendedConst` | crates/wasm-smith/src/core.rs:1796-1848 | For any input: a valid postfix program that never underflows and leaves one value, of odd length at most 23, made of the instructions drawn in reverse |
| `ConstExpr.BoundIsTight` | crates/wasm-smith/src/core.rs:1796-1848 | A valid program of 23 instructions exists |
| `Segments.Clamp` | crates/wasm-smith/src/core.rs:2385-2412 | The clamped offset, read as unsigned, is at most the largest allowed one, and is kept where it was |
| `Segments.GraduallyGrow` | crates/wasm-smith/src/core.rs:2859-2861 | The result lies in the asked range however the interpolation rounds |
| `Segments.ArbitraryOffset` | crates/wasm-smith/src/core.rs:2952-2967 | The offset never exceeds the maximum |
| `Segments.ArbitraryActiveData` | crates/wasm-smith/src/core.rs:2311-2418 | With traps disallowed every active data segment lies inside the minimum size of its memory; contents are only cut when they cannot fit |
| `Segments.ArbitraryData` | crates/wasm-smith/src/core.rs:2311-2418 | The same for all segments of a module; passive ones only with bulk memory |
| `Segments.ArbitraryActiveElem` | crates/wasm-smith/src/core.rs:2183-2262 | An active element segment lies inside the minimum size of its table; there is none exactly if the required elements do not fit behind the offset, and a list of functions without candidates is empty |
| `ComponentFuncs.ScalarLowers` | crates/wasm-smith/src/component.rs:1773-1806 | Lowering is supported for scalar functions, and for functions with one result only for those |
| `ComponentFuncs.FromCore` | crates/wasm-smith/src/component.rs:1812-1837 | A component type is found exactly for the core types of scalars, and it lowers to that type |
| `ComponentFuncs.InverseAbi` | crates/wasm-smith/src/component.rs:1808-1864 | Lowering the lifted function type gives the core function type back; unsupported exactly for several results or other core types |
| `ComponentFuncs.ComponentBuilder.PushImportedFunc` | crates/wasm-smith/src/component.rs:1478-1541 | An imported function keeps the function lists a partition of the index space |
| `ComponentFuncs.ComponentBuilder.PushType` | crates/wasm-smith/src/component.rs:256-277 | A new type is found again through the map from function types |
| `ComponentFuncs.ComponentBuilder.PushFunc` | crates/wasm-smith/src/component.rs:1553-1592 | Lifting and lowering append exactly one function, of the right type, and keep all lists exact |
| `ComponentFuncs.ComponentBuilder.CanonicalRound` | crates/wasm-smith/src/component.rs:1673-1736 | A round never reaches an unsupported case: what is lowered is scalar, what is lifted has the type its core function implements; it appends one function, or nothing, and that only if there is nothing to choose from, which ends the section, or if a new type is needed and there are as many as may be |
| `ComponentFuncs.ComponentBuilder.CanonicalSection` | crates/wasm-smith/src/component.rs:1632-1736 | All of that after any number of rounds, in every component being built; it gives up exactly if functions are required and no round can add one |
| `ComponentFuncs.ComponentBuilder.StartComponent` | crates/wasm-smith/src/component.rs:1749-1754 | An empty component satisfies all of it and the enclosing ones are untouched |
| `ComponentFuncs.ComponentBuilder.FinishComponent` | crates/wasm-smith/src/component.rs:439-445 | The component taken off the stack satisfies all of it and the enclosing ones are untouched |
| `CompositionGraph.CompositionGraph.AddComponent` | crates/wasm-compose/src/graph.rs:688-716 | Fails exactly if the name is taken (or the ids run out); otherwise a fresh id, and all links agree |
| `CompositionGraph.CompositionGraph.Instantiate` | crates/wasm-compose/src/graph.rs:764-789 | Fails exactly for an unknown component (or if the ids run out); otherwise a fresh unconnected instance |
| `CompositionGraph.CompositionGraph.RemoveInstance` | crates/wasm-compose/src/graph.rs:808-831 | The instance and all connections from and to it are gone, and exactly the imports it supplied are free again |
| `CompositionGraph.CompositionGraph.RemoveComponent` | crates/wasm-compose/src/graph.rs:734-761 | Removing a component is removing all its instances together |
| `CompositionGraph.CompositionGraph.Connect` | crates/wasm-compose/src/graph.rs:839-873 | Accepted exactly if the connection is acceptable, and rejected as validation says; otherwise the edge carries the import with its export and all it carried, the mark is made, and on an exact graph the assertion holds |
| `CompositionGraph.ValidateIs` | crates/wasm-compose/src/graph.rs:924-1001 | A connection passes exactly if the instances differ and are live, the import exists and is free, and the export exists and is compatible, or the whole instance is for an import of an instance |
| `CompositionGraph.CompositionGraph.Disconnect` | crates/wasm-compose/src/graph.rs:881-916 | The graph stays exact if and only if the import was free or the named source supplies it |
| `CompositionGraph.CompositionGraph.Run` | crates/wasm-compose/src/graph.rs:688-962 | Over every sequence of operations the graph is sound after each; it is exact and no assertion fails as long as every disconnection names an existing connection |
| `CompositionGraph.ConnectedKeeps` | crates/wasm-compose/src/graph.rs:839-962 | Connecting keeps soundness, and on an exact graph the import is on no other edge |
| `CompositionGraph.DisconnectedKeeps` | crates/wasm-compose/src/graph.rs:881-916 | The condition for exactness after a disconnection, both directions |
| `CompositionGraph.WrongDisconnectDuplicates` | crates/wasm-compose/src/graph.rs:881-916 | A concrete graph in which naming the wrong source lets two instances supply one import, and then trips the assertion of `connect` |
| `CompositionGraph.WithoutOneMore` | crates/wasm-compose/src/graph.rs:734-761 | Removing instances one after the other is removing them together |
| `CompositionGraph.EndsLive` | crates/wasm-compose/src/graph.rs:429-439 | Edges join different live instances; instances and components, and names and components, lead to each other in both directions |
| `Composer.Builder.Load` | crates/wasm-compose/src/composer.rs:75-102 | The builder starts with the root and all definitions in an exact graph; it fails exactly if two names agree or the ids run out |
| `Composer.Builder.AddComponent` | crates/wasm-compose/src/composer.rs:108-161 | Nothing is found exactly if neither the graph nor any file has the name; a file that holds no component is an error exactly if the graph does not have the name |
| `Composer.Builder.Instantiate` | crates/wasm-compose/src/composer.rs:168-190 | The instance of a name is made once; there is none exactly if imports are allowed and nothing of that name can be found, and one exactly if it is there or its component can be loaded and ids are left |
| `Composer.Builder.ResolveExport` | crates/wasm-compose/src/composer.rs:197-278 | The export used exists, is an instance, and is the one of the name asked for |
| `Composer.Builder.ProcessDefinition` | crates/wasm-compose/src/composer.rs:304-343 | The instance of the definition meets the import at the head of the queue with the export found, which is then settled; it panics exactly if the definition has to be instantiated and no id is left |
| `Composer.Builder.ProcessInstance` | crates/wasm-compose/src/composer.rs:345-402 | The import at the head is connected to the instance it asks for or known to have no component; a new instance is reported once; it panics exactly if the import is not of an instance and the instance it asks for is there or can be had |
| `Composer.Builder.PushDependencies` | crates/wasm-compose/src/composer.rs:405-478 | All imports of the new instance are queued, each once and as the definitions and the configuration say; an argument for no import is an error |
| `Composer.KindForIs` | crates/wasm-compose/src/composer.rs:405-478 | What an import becomes, without saying how it is found: the first definition that exports an instance of its name, else the configured argument, else the instance of its own name |
| `Composer.Builder.Build` | crates/wasm-compose/src/composer.rs:481-501 | Ends for every finite universe of components and every configuration, never finds an import already connected, and on success every import of every named instance is connected to what it asks for, the instance of that name with the export of the name given, or the instance of the definition with the export found, or has no component that could meet it; instances are of the components their names stand for; no panic over the kind of an import if all imports are of instances, and a panic if the first import of the root is not and can be met |
| `Composer.ComposeFunctionImport` | crates/wasm-compose/src/composer.rs:281-299 | A concrete world, a root that imports a function of the name of a component, that panics |
| `Composer.NamedFit` | crates/wasm-compose/src/composer.rs:345-402 | There are never more named instances than names in the universe: the measure of the work list |
| `Composer.ConnectSettles` | crates/wasm-compose/src/composer.rs:345-402 | Connecting the head of the queue settles it and leaves all other imports settled or queued |
| `Composer.WiredConnect` | crates/wasm-compose/src/composer.rs:345-402 | A connection from what the import asks for keeps every connection coming from what its import asks for |
| `Composer.DefinitionFor` | crates/wasm-compose/src/composer.rs:405-478 | The definition chosen exports an instance of that name |
| `ImportOrder.Toposort` | crates/wasm-compose/src/encoding.rs:1298-1313 | Ends for every acyclic map; extends the order by exactly what is reachable and was missing, dependencies first, no duplicates, and the assertion holds |
| `ImportOrder.SortImports` | crates/wasm-compose/src/encoding.rs:1135-1144 | The sorted import map is a permutation in which every dependency comes before its dependents, and the same map if that was so already |
| `ImportOrder.AcyclicHasNoCycle` | crates/wasm-compose/src/encoding.rs:1298-1313 | The premise of the search really excludes every cycle |
| `ImportDeps.Registrar.Ty` | crates/wasm-compose/src/encoding.rs:1186-1218 | Does what the function `AfterTy` says; the failing assertion is passed up |
| `ImportDeps.Registrar.Entity` | crates/wasm-compose/src/encoding.rs:1168-1184 | Does what the function `AfterEntity` says; fails where a created type is registered |
| `ImportDeps.TyCloses` | crates/wasm-compose/src/encoding.rs:1186-1218 | After a type is registered the dependencies of the import lead, in any number of steps, to the import that defines each type it mentions |
| `ImportDeps.EntityCloses` | crates/wasm-compose/src/encoding.rs:1168-1184 | The same for an imported or exported entity, and everything registered before stays led to |
| `ImportDeps.ImportsLed` | crates/wasm-compose/src/encoding.rs:1039-1089 | For all imports of a component, in order: from each one dependencies lead to the definer of every type it mentions, however deep |
| `ImportDeps.DefinedBeforeUse` | crates/wasm-compose/src/encoding.rs:1111-1147 | In every order that puts dependencies first, the import that defines a type comes before, or is, each import that mentions it |
| `ImportDeps.MetTwice` | crates/wasm-compose/src/encoding.rs:1168-1184 | The assertion fails for every component that meets an instance type that exports types twice, as an instance both times, or once as an instance and once by a name, in either order |
| `ImportDeps.EntityMoves` | crates/wasm-compose/src/encoding.rs:1168-1218 | Registering only adds: new types are defined by this import, new edges lead from it to imports that defined something before, and an instance type of which a created type is known is never entered again |
| `ImportDeps.EntityEdges` | crates/wasm-compose/src/encoding.rs:1168-1218 | A new dependency leads to the definer of a type that the import mentions |
| `ImportDeps.OneComponentAcyclic` | crates/wasm-compose/src/encoding.rs:1168-1218 | The dependencies between the imports of one component have no cycles, so the search for an order ends |
| `ImportWalk.FreshRegisters` | crates/wasm-compose/src/encoding.rs:1168-1184 | For every component the assertion holds if in the walk through its imports, nested members included, no type is created after it was met |
| `ImportWalk.RegistersIff` | crates/wasm-compose/src/encoding.rs:1168-1184 | And only if, where no name stands for a type that creates others |
| `GraphImports.AddComponentImports` | crates/wasm-compose/src/encoding.rs:1015-1029 | Components with instances are imported under their names, and the assertion that names are new holds |
| `GraphImports.AddImport` | crates/wasm-compose/src/encoding.rs:1049-1110 | An import seen before, new, or of a known name is recorded for its instance; a name conflict is reported exactly for a new import of the name of an imported component, a type conflict only for one that has to be merged |
| `GraphImports.AddInstantiationImports` | crates/wasm-compose/src/encoding.rs:1031-1147 | On success every unconnected import of every instance is recorded exactly once, under its name, no name is that of an imported component, and dependencies come first; a name conflict is reported only if one is, and a type conflict only if two imports share a name |
| `GraphEncoder.Encoder.EncodeImports` | crates/wasm-compose/src/encoding.rs:1362-1404 | One import for each name of the map, in its order; the imported arguments are exactly the recorded pairs, each denoting the import of its name |
| `GraphEncoder.Encoder.EncodeComponents` | crates/wasm-compose/src/encoding.rs:1565-1582 | Exactly one definition for every component with an instance is appended, in order, and nothing else |
| `GraphEncoder.Encoder.InstantiationArgs` | crates/wasm-compose/src/encoding.rs:1604-1661 | Exactly one argument per import: from the one edge that supplies it or from the imports, with no missing lookup |
| `GraphEncoder.Encoder.EdgeArgs` | crates/wasm-compose/src/encoding.rs:1613-1647 | The arguments of one edge: the source itself, or one alias per export however often used |
| `GraphEncoder.Encoder.ImportArgs` | crates/wasm-compose/src/encoding.rs:1649-1658 | The arguments nothing is connected to come from the recorded imports |
| `GraphEncoder.Encoder.Alias` | crates/wasm-compose/src/encoding.rs:1625-1641 | An export of an instance is aliased once and then found again |
| `GraphEncoder.Encoder.EncodeInstantiation` | crates/wasm-compose/src/encoding.rs:1539-1563 | One instantiation of the right component with all arguments |
| `GraphEncoder.Encoder.EncodeInstantiations` | crates/wasm-compose/src/encoding.rs:1481-1500 | Every live instance is instantiated, each when all its sources are |
| `GraphEncoder.Encoder.EncodeExports` | crates/wasm-compose/src/encoding.rs:1502-1537 | The exports are those of the instance, in order, each an alias of its own name; an unknown instance is an error |
| `GraphEncoder.Encoder.Encode` | crates/wasm-compose/src/encoding.rs:1348-1404 | A successful encoding instantiates every instance exactly once, refers only backwards, and gives every instantiation exactly its arguments; if components are to be defined, exactly those with instances are defined, once each, and none is imported, and otherwise each is imported once under its own name and none is defined; a cycle is reported exactly if the imports succeed and there is no order |
| `GraphEncoder.OneArgumentPerImport` | crates/wasm-compose/src/encoding.rs:1604-1661 | In the output: as many arguments as imports, and for each import exactly one of its name, which is the right item |
| `GraphEncoder.SourceBeforeTarget` | crates/wasm-compose/src/graph.rs:1020-1029 | Along every connection the source is instantiated before the target |
| `ComponentTypes.EvalWider` | crates/wasm-compose/src/encoding.rs:198-216 | The meaning of a nested body does not change when the index spaces around it grow |
| `ComponentTypes.CountsMatch` | crates/wasm-compose/src/encoding.rs:40-54 | The counters of the encoders are the sizes of the index spaces |
| `ComponentTypes.UnfoldPeeled` | crates/wasm-compose/src/encoding.rs:610-616 | Following aliases does not change what a type means |
| `TypeScopes.EmitKeeps` | crates/wasm-compose/src/encoding.rs:64-92 | A new item keeps every entry of every map of every scope right |
| `TypeScopes.OuterEmitKeeps` | crates/wasm-compose/src/encoding.rs:573-597 | An alias added to an outer scope keeps all inner scopes and all maps right |
| `TypeScopes.PopKeeps` | crates/wasm-compose/src/encoding.rs:198-216 | Leaving an instance body registers its exported types at the index of the instance declared next, and its own type exports them |
| `TypeScopes.DeclareKeeps` | crates/wasm-compose/src/encoding.rs:784-806 | Declaring an instance that exports all that waits for one makes the registered entries right |
| `TypeOrder.NamedThenMade` | crates/wasm-compose/src/encoding.rs:198-216 | Naming an instance type and then declaring an instance of it is in order |
| `TypeOrder.NamedAgain` | crates/wasm-compose/src/encoding.rs:198-216 | In order, an instance type of which no instance is declared can be named again only by the same type, which is cached |
| `TypeOrder.NoNamesBodiesOk` | crates/wasm-compose/src/encoding.rs:198-216 | If no name stands for an instance type that exports types, the order inside bodies does not matter |
| `TypeEncoder.TypeState.Ty` | crates/wasm-compose/src/encoding.rs:512-540 | Does what `Translation.Ty` says, whose meaning `TyMeans` proves; the failing assertion is a panic |
| `TypeEncoder.TypeState.TyInner` | crates/wasm-compose/src/encoding.rs:544-634 | The walk along the chain of aliases is that of `Translation.TyInner` |
| `TypeEncoder.TypeState.FindExported` | crates/wasm-compose/src/encoding.rs:548-568 | Finds the first cached type among those exported under the same name; `TypeReuse` proves what that is for |
| `TypeEncoder.TypeState.FindInOuter` | crates/wasm-compose/src/encoding.rs:570-597 | Finds the innermost outer scope that has the type and emits one alias there and one here, and changes nothing if there is none |
| `TypeEncoder.TypeState.Define` | crates/wasm-compose/src/encoding.rs:619-633 | Does what `Translation.Define` says for every kind of definition |
| `TypeEncoder.TypeState.ValTypes` | crates/wasm-compose/src/encoding.rs:636-736 | Parts are translated in order, up to the first panic |
| `TypeEncoder.TypeState.EntityRef` | crates/wasm-compose/src/encoding.rs:391-424 | Does what `Translation.EntityRef` says for every kind of entity |
| `TypeEncoder.TypeState.ExportInto` | crates/wasm-compose/src/encoding.rs:784-806 | Does what `Translation.ExportInto` says; each of the two assertions can panic |
| `TypeEncoder.TypeState.Pop` | crates/wasm-compose/src/encoding.rs:198-216 | The outer scope comes back with the exported types registered; it panics exactly if one was registered before |
| `TypeEncoder.TypeState.ExportAll` | crates/wasm-compose/src/encoding.rs:302-321 | All exports of a body, in order, up to the first panic |
| `TypeEncoder.TypeState.ImportAll` | crates/wasm-compose/src/encoding.rs:266-300 | All imports of a component body, in order, up to the first panic |
| `TypeEncoder.TypeState.InstanceBodyOf` | crates/wasm-compose/src/encoding.rs:302-321 | Does what `Translation.Body` says for an instance type |
| `TypeEncoder.TypeState.ComponentBodyOf` | crates/wasm-compose/src/encoding.rs:266-300 | Does what `Translation.Body` says for a component type |
| `TypeMeaning.TyMeans` | crates/wasm-compose/src/encoding.rs:512-540 | The item at the returned index means what the source type means; it is cached once per scope and no assertion fails, if nothing that waits for an instance is part of the type |
| `TypeMeaning.TyInnerMeans` | crates/wasm-compose/src/encoding.rs:544-634 | The same along the chain of aliases, with only smaller types cached on the way |
| `TypeMeaning.FoundMeans` | crates/wasm-compose/src/encoding.rs:548-608 | A type found at an export of the same name, in an outer instance or in one of this scope has the meaning asked for |
| `TypeMeaning.OuterFoundMeans` | crates/wasm-compose/src/encoding.rs:570-597 | The outer alias resolves through the scope stack to the alias just emitted there, of the same type |
| `TypeMeaning.DefineMeans` | crates/wasm-compose/src/encoding.rs:619-633 | A definition is emitted with the meaning of the source definition |
| `TypeMeaning.ValTypesMeans` | crates/wasm-compose/src/encoding.rs:636-736 | Parts keep their meaning while later ones are added |
| `TypeMeaning.EntityRefMeans` | crates/wasm-compose/src/encoding.rs:391-424 | The reference to an entity has its kind and meaning |
| `TypeMeaning.ReadyFor` | crates/wasm-compose/src/encoding.rs:198-216 | In an order as described the next declaration can be translated: it is cached, or nothing it registers is registered and nothing it looks up waits |
| `TypeMeaning.AwaitedFor` | crates/wasm-compose/src/encoding.rs:198-216 | In such an order an instance exports everything that waits when it is declared |
| `TypeMeaning.ImportAllMeans` | crates/wasm-compose/src/encoding.rs:266-300 | All imports of a component body, in order, have their meanings |
| `TypeMeaning.ExportAllMeans` | crates/wasm-compose/src/encoding.rs:302-321 | All exports of a body, in order, have their meanings, and exactly the types they create are exported |
| `TypeMeaning.ExportIntoMeans` | crates/wasm-compose/src/encoding.rs:784-806 | An exported type is found at its export from then on; both assertions hold |
| `TypeMeaning.InstanceDefined` | crates/wasm-compose/src/encoding.rs:445-455 | The emitted instance type means the source instance type, and all it exports is registered |
| `TypeMeaning.ComponentDefined` | crates/wasm-compose/src/encoding.rs:457-469 | The emitted component type means the source component type |
| `TypeMeaning.TyPanics` | crates/wasm-compose/src/encoding.rs:198-216 | An instance type is not translated a second time in a scope: the assertion fails |
| `TypeReuse.TyReuses` | crates/wasm-compose/src/encoding.rs:512-568 | A type that is exported in the scope, by whichever component, is never translated again: translating it returns the index of one exported under its name and emits nothing, and translating anything else leaves that so |
| `TypeReuse.OuterTypeIsAliased` | crates/wasm-compose/src/encoding.rs:570-597 | A type that an instance of a scope around exports is not defined again: one alias in the innermost such scope and one to it |
| `TypeReuse.InstanceTypeIsAliased` | crates/wasm-compose/src/encoding.rs:599-608 | A type that an instance of the scope exports, and none around it, is one alias |
| `TypeImports.ExportMerged` | crates/wasm-compose/src/encoding.rs:1449-1466 | An export of a merged instance is translated once and known under every view, up to the first panic |
| `TypeImports.MergedNext` | crates/wasm-compose/src/encoding.rs:1449-1466 | It has the meaning that all views agree on, and exactly the types of all views are exported |
| `TypeReuse.ReferenceIsExport` | crates/wasm-compose/src/encoding.rs:548-568 | In the body of a merged instance every reference to a type that some view exports under a name, by any component and at any later time, leads to the one export of that name, and nothing is emitted |
| `TypeReuse.TranslatingIsLater` | crates/wasm-compose/src/encoding.rs:512-568 | A later time is after any number of further translations in the body, by whichever components |
| `TypeImports.ItemMeans` | crates/wasm-compose/src/encoding.rs:1423-1439 | The import means the entity, in order and if nothing is registered twice |
| `TypeImports.NextInstanceDecides` | crates/wasm-compose/src/encoding.rs:198-216 | While an instance type is named and not made, importing any instance and then looking up a type that waits gives an alias that means the type if and only if that instance exports it under the name the named instance type has for it |
| `TypeImports.ItemPanics` | crates/wasm-compose/src/encoding.rs:1423-1439 | The translation, on its own, panics if the import registers what an earlier one registered |
| `TypeImports.EncodeInstanceImport` | crates/wasm-compose/src/encoding.rs:1441-1479 | Imports the union of the views; a panic of the translation is passed up |
| `TypeImports.MergedMeans` | crates/wasm-compose/src/encoding.rs:1441-1479 | The import is the union of all views; it panics exactly if a type it exports was registered before, which no earlier import did if none repeats another |
| `TypeImports.TranslationMeans` | crates/wasm-compose/src/encoding.rs:1370-1395 | The translation on its own, of any import map: in order and without clashes all imports mean what the components expect; with a clash an assertion fails, unless an instance type is reached through what another import registers |
| `TypeImports.TranslateImports` | crates/wasm-compose/src/encoding.rs:1370-1395 | The loop over any import map panics or succeeds as the functions say; in order and without clashes what it emits are the imports that the components expect, and it succeeds if and only if none clash, with the same exception |
| `TypeImports.NoNamesInOrder` | crates/wasm-compose/src/encoding.rs:1370-1395 | If no name stands for an instance type that exports types, every order is right, and there is no such exception |
| `ImportMerge.ViewsMerge` | crates/wasm-compose/src/encoding.rs:873-901 | Merging an instance of one more component keeps the map of exports: names differ, every export of every component has its view and every view comes from one, all views of an export mean the same, and exports of one component keep their order |
| `ImportMerge.MergedFromOk` | crates/wasm-compose/src/encoding.rs:873-901 | Such a map can be translated: each created type is in one view, and first views come in the order of their component |
| `ImportMerge.MergedFromFresh` | crates/wasm-compose/src/encoding.rs:873-901 | And of it all references are as described: a type that a component creates is created after everything of that component that is translated before |
| `ImportMerge.AddViewsIs` | crates/wasm-compose/src/encoding.rs:878-901 | Merging an instance fails exactly if one of its exports is not compatible with some view of the same name |
| `ImportMerge.MergeViews` | crates/wasm-compose/src/encoding.rs:878-901 | The loop adds every export of the component, or stops at the first conflict |
| `ImportPlan.AddKeeps` | crates/wasm-compose/src/encoding.rs:859-947 | The import map has exactly one entry for each name, made of all imports of that name: an instance becomes a union when another one comes, other items of one name all mean the same |
| `ImportPlan.ConflictIff` | crates/wasm-compose/src/encoding.rs:859-947 | An import is refused exactly if an earlier one of its name opposes it: only one of them is an instance, exports of the two disagree, or it is not compatible with the first of its name |
| `ImportPlan.PlanImports` | crates/wasm-compose/src/encoding.rs:1031-1110 | The loop over all imports, in whatever order: each is registered and then merged, up to the first failing assertion or conflict |
| `ImportPlan.MetOnce` | crates/wasm-compose/src/encoding.rs:1168-1184 | Of two registered imports of a component that meet one instance type that exports types both only name it |
| `ImportPlan.PlansAreGood` | crates/wasm-compose/src/encoding.rs:1031-1110 | Every plan has all of that, for any number of components: the import map, what is registered for each component, and that from each import dependencies lead to the definer of every type it mentions |
| `ImportPlan.PlanConflicts` | crates/wasm-compose/src/encoding.rs:1031-1110 | There is a plan only if no two imports oppose each other, and a conflict is reported only if two do |
| `ImportPlan.PlannedReference` | crates/wasm-compose/src/encoding.rs:1441-1466 | In every merged instance of a plan references lead to exports as described |
| `ImportPlan.DependsOnEarlier` | crates/wasm-compose/src/encoding.rs:1031-1110 | An import depends on imports that come earlier in the same component, and types are defined by imports of the component |
| `ImportPlan.DependsIfNeeded` | crates/wasm-compose/src/encoding.rs:1168-1218 | And only on those that define a type it mentions |
| `ImportPlan.OneOrderAcyclic` | crates/wasm-compose/src/encoding.rs:1111-1144 | If one order of names suits the imports of all components, the dependencies have no cycles |
| `ImportPlan.SortEntries` | crates/wasm-compose/src/encoding.rs:1135-1144 | The import map is sorted as its names are, with the same entries |
| `ImportPlan.SortedInTime` | crates/wasm-compose/src/encoding.rs:1111-1144 | In the sorted import map every type that an import of a component mentions is defined by an entry that comes no later |
| `ImportPlan.RegisteredNoClash` | crates/wasm-compose/src/encoding.rs:1168-1184 | If all imports were registered and names are in order, no two entries make the same type available, so that no assertion of the translation fails |
| `ImportPlan.EntryProvides` | crates/wasm-compose/src/encoding.rs:859-947 | The one import of a name has everything that each component expects of it, with the same meaning, and nothing that none expects |
| `ImportPlan.EncodeImports` | crates/wasm-compose/src/encoding.rs:1362-1404 | From the imports of any number of components to items: it reports a conflict only if two imports oppose each other, and there is a plan only if none do; if there is a plan the result is the translation of the sorted import map; in order, and always if no name stands for an instance type that exports types, no assertion fails and what is emitted satisfies every import of every component and has nothing else |
| `TypeExamples.NamedTooEarly` | crates/wasm-compose/src/encoding.rs:198-216 | A concrete component that imports a name for an instance type, an instance of another type and a function that uses a type of the first: all are registered, no assertion fails, and the imported function has the wrong type |
| `TypeExamples.NamedTwiceFails` | crates/wasm-compose/src/encoding.rs:198-216 | A concrete component that imports a name for an instance type and a name for that name: both are registered, and the translation fails an assertion |
| `TypeExamples.OppositeOrders` | crates/wasm-compose/src/encoding.rs:1298-1313 | Two concrete components that import two instances in opposite orders: all are registered and merged, and each of the two imports depends on the other |
| `Producers.SectionRoundTrip` | crates/wasm-metadata/src/producers.rs:58-138 | Writing a section and reading it back gives the same fields |
| `Producers.FromSectionWellFormed` | crates/wasm-metadata/src/producers.rs:58-72 | Whatever is read has no duplicate fields or values |
| `Producers.FromSectionLookup` | crates/wasm-metadata/src/producers.rs:58-72 | For every field and name the last entry of the last such field is read, and nothing if there is none |
| `Producers.CollectKeys` | crates/wasm-metadata/src/producers.rs:58-72 | Fields and names are in the order in which they came first |
| `Producers.AddLookup` | crates/wasm-metadata/src/producers.rs:77-88 | Adding a value changes that value and no other |
| `Producers.MergeLookup` | crates/wasm-metadata/src/producers.rs:92-98 | Merging is right-biased, value by value |
| `Producers.MergeWellFormed` | crates/wasm-metadata/src/producers.rs:92-98 | Merging makes no duplicates |
| `Producers.ProducersSection.FromBytes` | crates/wasm-metadata/src/producers.rs:58-72 | The loops build the fields of the section |
| `Producers.ProducersSection.MergeFrom` | crates/wasm-metadata/src/producers.rs:92-98 | The nested loops compute the merge |
| `Metadata.ReadLoopIsReadTree` | crates/wasm-metadata/src/payload.rs:34-160 | The reader with its stack computes the recursive reading of the tree, including its errors |
| `Metadata.ReadBinary` | crates/wasm-metadata/src/payload.rs:34-160 | The same for the loop as it is written, and what it reads is the last title, producers and text of each kind, and the nested binaries in order |
| `Metadata.TreeRead` | crates/wasm-metadata/src/payload.rs:34-160 | What is read, on the list of sections: of titles, producers and each text the last one, and the nested binaries in order; reading fails exactly if some section, at any depth, makes no sense |
| `MetadataRewrite.NestedItemsCopied` | crates/wasm-metadata/src/rewrite.rs:30-57 | Below the outermost level everything is copied |
| `MetadataRewrite.OuterItemsRewritten` | crates/wasm-metadata/src/rewrite.rs:59-147 | At the outermost level sections are rewritten one by one, or the first error is returned |
| `MetadataRewrite.RewriteLoopIsRewriteTree` | crates/wasm-metadata/src/rewrite.rs:23-187 | The streaming rewriter writes exactly the rewritten tree, or both fail |
| `MetadataRewrite.Rewrite` | crates/wasm-metadata/src/rewrite.rs:11-187 | The same for the loop as it is written, and each piece of the output is what becomes of the section in its place |
| `MetadataRewrite.SectionsInPlace` | crates/wasm-metadata/src/rewrite.rs:59-147 | Every section of the outermost binary stays in its place: names keep all other names in order and get the added or last title, producers are merged value by value, anything else is unchanged; it fails exactly if a section it looks at makes no sense |
| `MetadataRewrite.NamesAreRewritten` | crates/wasm-metadata/src/names/module.rs:70-93 | A section of names is written back with the added title, or else the last one, and then every other subsection that can be written, in order |
| `MetadataRoundTrip.RewriteThenRead` | crates/wasm-metadata/src/rewrite.rs:11-187 | Rewriting and reading back is reading and overlaying the additions: right-biased, producers merged, nested binaries unchanged |
| `MetadataRoundTrip.UnreadableNotRepaired` | crates/wasm-metadata/src/rewrite.rs:11-187 | What cannot be read before cannot be read after |
| `MetadataRoundTrip.OtherSectionsKept` | crates/wasm-metadata/src/rewrite.rs:23-187 | All other sections and all nested binaries keep id, contents and order |
| `Shrink.ShrinkRun.Run` | crates/wasm-shrink/src/lib.rs:232-374 | For every predicate and mutator: at most 2 + (attempts - 1) * (input length + 1) calls, each candidate hash once, the output interesting, no longer than the input and than anything that was found interesting, after turns in which all candidates were tried, every report strictly smaller than all before, aborted exactly if a predicate call or a report fails, all other errors exactly characterised, and when the debug assertion holds |
| `Shrink.ShrinkRun.Search` | crates/wasm-shrink/src/lib.rs:290-374 | Ends by the measure (best length, attempts left), and only when the attempts since the last new best are used up in the recorded turns |
| `Shrink.ShrinkRun.Mutate` | crates/wasm-shrink/src/lib.rs:290-374 | One turn is recorded: what was mutated, at most ten candidates and no more than there are attempts left, all of them tried or those up to the accepted one, and the current and best test cases and the attempt it leads to |
| `Shrink.ShrinkRun.TestOnce` | crates/wasm-shrink/src/lib.rs:343-356 | A candidate is tested exactly if none of its hash was |
| `Shrink.ShrinkRun.TryCandidates` | crates/wasm-shrink/src/lib.rs:327-366 | The candidates are tried in order, each tested unless it failed or one of its hash was; the first that is interesting and smaller than the current one, or let through all the same, is accepted, and nothing exactly if there is none; every call is paid for by an attempt |
| `Shrink.ShrinkRun.OnNewInteresting` | crates/wasm-shrink/src/lib.rs:185-216 | A new best is strictly smaller, is reported, and resets the attempts if the report is accepted; anything else changes nothing |
| `Shrink.EmptyComponentTripsAssertion` | crates/wasm-shrink/src/lib.rs:185-196 | A concrete run in which the assertion fails |
| `BlockTree.BodyBuilds` | crates/wasm-migrate/src/lib.rs:58-97 | The pass over an else-free body appends exactly its nodes and leaves the stack as it was |
| `BlockTree.FunctionBuilds` | crates/wasm-migrate/src/lib.rs:394-463 | For a whole function the stack ends empty and the nodes are those of its blocks and stretches of code |
| `BlockTree.BuildBlockTree` | crates/wasm-migrate/src/lib.rs:394-463 | The loop as it is written, and its final assertion |
| `Regions.NodesWellNested` | crates/wasm-migrate/src/lib.rs:394-463 | Nodes are disjoint or nested, and each lies in the node it names as outer |
| `Regions.GenerateCheckpointList` | crates/wasm-migrate/src/lib.rs:583-590 | The list leads to the nodes directly in the body, in order |
| `Regions.RegionsTile` | crates/wasm-migrate/src/lib.rs:583-590 | The regions cut the bytes of the body into consecutive pieces |
| `Regions.PrintBlockInstructions` | crates/wasm-migrate/src/lib.rs:1044-1089 | The scan prints exactly the operators of the node, calls shifted |
| `Regions.ShiftedCallsSame` | crates/wasm-migrate/src/lib.rs:1060-1073 | With two more functions after the imported ones every call is still of the same function |
| `Regions.PrintedRegionsAreBody` | crates/wasm-migrate/src/lib.rs:1044-1089 | Printing region after region gives the body without its last `end`: nothing lost, nothing twice |
| `ElseRegions.StackEndsEmpty` | crates/wasm-migrate/src/lib.rs:433-463 | The final assertion holds if and only if there is at most one `else` |
| `ElseRegions.RegionsReproduceBodyIff` | crates/wasm-migrate/src/lib.rs:394-463 | The regions reproduce the body if and only if there is no `else` |
| `ElseRegions.ElseExample` | crates/wasm-migrate/src/lib.rs:433-439 | A concrete body with one `else` that is not reproduced |
| `Liveness.GenerateModifiedVarList` | crates/wasm-migrate/src/lib.rs:594-646 | For each region the locals that the scan finds written in it; fails exactly if the scan meets bytes of a region that are no operator |
| `Liveness.GenerateLiveVarList` | crates/wasm-migrate/src/lib.rs:650-781 | Live-out of a region is what it or an earlier one is found to write and a later one to read; fails exactly if there is no region or the scan meets bytes that are no operator |
| `Resume.AnalyseFunction` | crates/wasm-migrate/src/lib.rs:394-781 | From operators and scans to live-out sets, whatever the scans read; if they are in step with the body they are, for each region, the locals written up to it and read after it, and only a body without instructions fails |
| `Resume.RegionsArePieces` | crates/wasm-migrate/src/lib.rs:594-781 | On a list that has the operators of the body at its bytes, the scans, which stop before the end position, find exactly the locals of each region |
| `Resume.InStepIsLive` | crates/wasm-migrate/src/lib.rs:594-781 | Scans in step with the body find what it writes and reads |
| `Scans.ReachesIsInStep` | crates/wasm-migrate/src/lib.rs:594-646 | Two readers of the same bytes agree from a position on if and only if the earlier one stops there |
| `Scans.ReachedBodyIsLive` | crates/wasm-migrate/src/lib.rs:594-781 | The scans are in step if and only if reading from the first byte stops at the first operator, and then the sets are those of the body |
| `Scans.LocalIsLost` | crates/wasm-migrate/src/lib.rs:594-781 | Concrete bytes, a declaration of 68 locals that reads as the start of a constant, for which a local that has to be restored is not found |
| `Resume.UnreadIrrelevant` | crates/wasm-migrate/src/lib.rs:650-781 | Locals a body does not read cannot change what it computes, loops and branches included |
| `Resume.UnwrittenKept` | crates/wasm-migrate/src/lib.rs:594-646 | Locals a body does not write keep their values |
| `Resume.ResumeIsUninterrupted` | crates/wasm-migrate/src/lib.rs:650-781 | After any region, restoring only its live-out locals over the initial frame makes every later region end with the same control flow and state as the uninterrupted run |

## Left out

- Segments.ArbitraryActiveData: assumes pages of 64 KiB, as the code does; on custom page sizes the code does not have the property.
- TypeGenerator.Module.ArbitraryTypes: states safety for any number of turns and not that the loop ends, because a turn may add nothing.
- TypeGenerator.Module.AddExampleFuncType: models the new type, not the parsing of the example module.
- GraphEncoder.Encoder.Encode: takes a topological order of the connected instances as given by the graph library, an acyclic dependency map, and positions of items instead of one numbering per kind.
- GraphImports.AddImport: whether two imports of one name can be merged is a free choice, so errors of merging are not characterised.
- ImportPlan.EncodeImports: the test of compatibility is a parameter, of which it is required that compatible views mean the same, as sequences of exports, although the code's test also accepts views that differ in order; that types refer to earlier types and created types are new where they are exported; and that dependencies have no cycles, because the search has no check for them. Imports of whole components, which are translated in the same loop, are not among its entries.
- TypeImports.TranslateImports: requires of an import map what `ImportPlan.EncodeImports` proves of the one it builds.
- TypeImports.TranslationMeans: the order is a condition under which the meaning is kept, not the weakest one, because a type registered at the wrong instance does no harm if nothing refers to it afterwards.
- Composer.Builder.Build: finding a compatible export is a free choice among the instance exports, and the root and the definitions are taken as read.
- GraphImports.AddInstantiationImports: takes the dependencies as given, because its components have no types; `ImportPlan.EncodeImports` computes them from the types, for imports that have been met for the first time.
- ComponentFuncs.ComponentBuilder.FinishComponent: omits filling the minimums before the component is popped, because that is the rounds of each section again.
- CompositionGraph.CompositionGraph.Connect: compatibility of types is a free choice, since remapping of resources is not modelled.
- Resume.ResumeIsUninterrupted: is about locals; how checkpoints are laid out in memory and which regions a resumed function skips is not modelled.
- Scans.ReachedBodyIsLive: being in step is a condition under which the sets are right, not the weakest one, because a scan out of step may happen to miss no local.
- MetadataRoundTrip.RewriteThenRead: metadata texts are opaque strings that parse back to themselves, and byte ranges are not modelled.
- Resources, core module types and their remapping in wasm-compose's type translation.
- Liveness of globals in wasm-migrate, which the code over-approximates for now.
- LEB128 bytes, section offsets, name-section internals and the validation done by wasmparser.
- Canonicalisation of structurally equal types: two equal types at different indices are different types here, as in the generator's relation.
- Limits of `u32` and `usize`, except where the graph checks for the largest id.
- Interpolation in `gradually_grow`; only its clamp is used.
- The mutators of wasm-mutate, reencoding, the text formats, the command line, the C API, the playground and file search.
