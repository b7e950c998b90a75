# Webstudio code generation, indexable store and pages tree — a Dafny model

This project models four pieces of the Webstudio builder and SDK, and proves properties about each:

- **The JSX component generator** (`packages/react-sdk/src/component-generator.ts`). Given an
  instance tree, its props, data sources, a per-instance class map and a naming `Scope`, it emits
  the source text of a React component:
  - `generatePropValue` turns a prop into a JavaScript value;
  - `generateAction` rewrites action bodies and appends setter calls;
  - `generateJsxElement` emits one element: traceability attributes, show guard, collection `map`,
    slot pass-through, Fragment reference, merged `className`, self-closing tags;
  - `generateJsxChildren` recurses over children;
  - `generateWebstudioComponent` emits the parameter destructuring, the `useState`/`useResource`
    declarations of the component's own data sources, and the returned JSX.
- **The instance tree helpers** the generator depends on: the ids of a subtree, with or without
  slot descendants; the Fragments reached through slots; and `parseComponentName`. They are modelled
  from the expectations in `packages/sdk/src/instances-utils.test.ts`.
- **`IndexableStore` and `GroupIndex`** (`apps/builder/app/shared/indexable-store.ts`). This is a
  keyed store that keeps secondary group indexes in step on `set` and `delete`.
- **The pages panel tree** (`apps/builder/app/builder/features/pages/pages.tsx`). This covers
  `traverse`, which flattens folders and pages into tree rows, plus `isFolder` and the
  expanded-set update of `handleExpand`.

Layout (one module per file):

| file | module | what |
|---|---|---|
| `wrappers.dfy` | `Wrappers` | `Option`, `Result` |
| `text.dfy` | `TextUtil` | decimal digits, `split` and `join` |
| `json.dfy` | `Json` | `JSON.stringify` of literal values; string quoting and its inverse |
| `naming.dfy` | `Naming` | the name ledger behind `Scope.getName` |
| `schema.dfy` | `Schema` | instances, props, data sources; acyclicity by rank |
| `instances.dfy` | `InstancesUtils` | subtree ids, fragment discovery, component names |
| `expression.dfy` | `Expression` | data source variables and identifier resolution of `generateExpression` |
| `actions.dfy` | `ActionGenerator` | `generateAction` |
| `component_generator.dfy` | `ComponentGenerator` | prop values, elements, children, components |
| `indexable_store.dfy` | `IndexableStore` | `GroupIndex`, `IndexableStore` |
| `pages.dfy` | `PagesTree` | `$flatPagesTree`, `isFolder`, `handleExpand` |

How the model is built:

- **Naming.** The generator threads one mutable `Scope` through everything it emits. Here that is
  `Naming.Scope`, a class over a `names: map<string, string>` from keys to names. Each generating
  method (`GenerateAction`, `GenerateJsxElement`, `GenerateJsxChildren`,
  `GenerateWebstudioComponent`, …) keeps the loops of the source. It is proved against a
  specification function. That function returns the text together with the new ledger, and proves
  two things: the ledger only grows, and it keeps names distinct.
- **Collections.** The maps the source iterates (`Props`, `DataSources`) are sequences in insertion
  order, with lookups by id. This is what iteration over a JavaScript `Map` sees. `Instances` is
  only looked up, so it is a Dafny `map` from ids to instances.
- **Acyclicity.** Recursion over instance children and over folder children is justified by a
  ghost rank map. Without it the source's recursion would not end.

## Model

| member | source | states |
|---|---|---|
| `Naming.NameFor` | packages/react-sdk/src/component-generator.ts:74-78 | a known key keeps its name; a new key gets a name no other key has (the preferred name when it is free); the ledger only grows and stays injective |
| `Naming.NameStable` | packages/react-sdk/src/component-generator.ts:62-79 | asking again for the same key returns the same name and leaves the ledger as it is |
| `Naming.NamesDistinct` | packages/react-sdk/src/component-generator.ts:384-388 | two distinct keys get distinct names |
| `Naming.Scope.GetName` | packages/react-sdk/src/component-generator.ts:74-78 | `scope.getName` updates the ledger exactly as `NameFor` does and returns its name |
| `TextUtil.Split` | packages/react-sdk/src/component-generator.ts:282-283 | `split("\n")` yields at least one part, no part holds the separator, and there is a single part exactly when the text has none |
| `TextUtil.JoinSplit` | packages/react-sdk/src/component-generator.ts:282-285 | joining the split lines with the separator gives back the text |
| `TextUtil.SplitJoin` | packages/react-sdk/src/component-generator.ts:282-285 | splitting joined lines that hold no separator gives back the lines |
| `TextUtil.SplitNoSeparator` | packages/react-sdk/src/component-generator.ts:282-285 | a text without the separator splits into itself |
| `TextUtil.Digits` | packages/react-sdk/src/component-generator.ts:160 | the decimal text of an index is a non-empty string of digits |
| `TextUtil.DigitsInjective` | packages/react-sdk/src/component-generator.ts:160 | distinct indexes have distinct decimal texts |
| `Json.Quote` | packages/react-sdk/src/component-generator.ts:154-157 | a quoted string starts and ends with a double quote |
| `Json.UnescapeEscape` | packages/react-sdk/src/component-generator.ts:110 | unescaping the escaped characters of a string gives the string back |
| `Json.QuoteInjective` | packages/react-sdk/src/component-generator.ts:209 | `JSON.stringify` of a string can be decoded again, so distinct strings have distinct encodings |
| `Json.StringifyBoolean` | packages/react-sdk/src/component-generator.ts:176-181 | the prop value text is `true` (or `false`) exactly for the boolean literal `true` (or `false`) |
| `InstancesUtils.SubtreeIds` | packages/sdk/src/instances-utils.test.ts:26-41 | the subtree's id set contains its root |
| `InstancesUtils.SubtreeClosed` | packages/sdk/src/instances-utils.test.ts:26-41 | every child of a collected (and expanded) instance is collected too |
| `InstancesUtils.SubtreeOnlyDescendants` | packages/sdk/src/instances-utils.test.ts:29-41 | every collected id other than the root is a child of a collected instance, so siblings and other trees stay out |
| `InstancesUtils.ExcludingSlotsIsSubset` | packages/sdk/src/instances-utils.test.ts:44-66 | excluding slot descendants never adds ids |
| `InstancesUtils.FindFragmentInstanceIds` | packages/sdk/src/instances-utils.test.ts:69-83 | only Fragment instances are reported |
| `InstancesUtils.FragmentsThroughSlots` | packages/sdk/src/instances-utils.test.ts:69-83 | a Fragment that is the child of a slot in the tree is reported |
| `InstancesUtils.FindTreeInstanceIdsExample` | packages/sdk/src/instances-utils.test.ts:26-41 | the subtree of `3` is exactly `{3, 4, 5}` |
| `InstancesUtils.ExcludingSlotDescendantsExample` | packages/sdk/src/instances-utils.test.ts:44-66 | without slot descendants the subtree of `box1` is exactly `{box1, box12, slot11}` |
| `InstancesUtils.FindFragmentInstanceIdsExample` | packages/sdk/src/instances-utils.test.ts:69-83 | the Fragments of `body`, nested through two slots, are exactly `{fragment1, fragment2}` |
| `InstancesUtils.ParseComponentName` | packages/sdk/src/instances-utils.test.ts:86-89 | a name without a colon has no namespace; otherwise namespace, colon and short name make up the name |
| `InstancesUtils.ParseNamespaced` | packages/sdk/src/instances-utils.test.ts:88 | `ns:Name` splits at its first colon |
| `InstancesUtils.ParseFormatComponentName` | packages/sdk/src/instances-utils.test.ts:86-89 | parsing and formatting a component name are inverse to each other |
| `InstancesUtils.ParseComponentNameExample` | packages/sdk/src/instances-utils.test.ts:86-89 | `Box` parses to no namespace and `Box`; `radix:Box` parses to `radix` and `Box` |
| `Expression.DecodeEncode` | packages/react-sdk/src/component-generator.ts:56 | decoding a data source variable is the inverse of encoding its id, in both directions |
| `Expression.Dependency` | packages/react-sdk/src/component-generator.ts:56-57 | an identifier denotes a data source only if it encodes that source's (non-empty) id, and the source is the one the lookup finds |
| `Expression.ExpressionFrom` | packages/react-sdk/src/component-generator.ts:121-127 | generating an expression fails exactly when some identifier denotes no data source; otherwise it appends to the text and the ledger grows injectively |
| `Expression.ExpressionText` | packages/react-sdk/src/component-generator.ts:121-127 | a generated expression appends the code with every data source variable replaced by its data source's name in the final ledger, and every such data source is named there |
| `Expression.ExpressionKeepsNames` | packages/react-sdk/src/component-generator.ts:121-127 | when every data source the code uses is already named, generating it draws no new name |
| `Expression.ExpressionOfNamed` | packages/react-sdk/src/component-generator.ts:121-127 | when every identifier is bound and already named, the expression is exactly the code rendered with the current names, and the ledger is unchanged |
| `Expression.ExpressionStep` | packages/react-sdk/src/component-generator.ts:121-127 | verbatim code is copied unchanged; an identifier that denotes a data source is replaced by that source's scope name, and by the name already recorded (the ledger unchanged) when it has one; only an identifier that denotes no data source fails |
| `Expression.GenerateExpression` | packages/react-sdk/src/component-generator.ts:288-293 | the loop emits what `ExpressionFrom` specifies, with the scope updated accordingly |
| `Expression.GeneratePiece` | packages/react-sdk/src/component-generator.ts:121-127 | one iteration emits what `ExpressionStep` specifies, with the scope updated accordingly |
| `ActionGenerator.TransformIdentifier` | packages/react-sdk/src/component-generator.ts:52-68 | an action argument, or an identifier that denotes no data source, is emitted as written; one that denotes a data source is emitted as that source's scope name (the recorded one when it exists, leaving the ledger unchanged); the ledger and setters only grow |
| `ActionGenerator.TransformCodeText` | packages/react-sdk/src/component-generator.ts:49-69 | a rewritten clause body is its pieces with every argument and unknown identifier kept and every data source variable replaced by its scope name in the final ledger |
| `ActionGenerator.ClausesText` | packages/react-sdk/src/component-generator.ts:47-71 | the accumulated assigners code is every clause body rewritten with the final ledger, in clause order, each followed by a newline |
| `ActionGenerator.ClausesFrom` | packages/react-sdk/src/component-generator.ts:47-71 | the action's formal arguments are those of the last clause, or none when there are no clauses |
| `ActionGenerator.AddSetterMembers` | packages/react-sdk/src/component-generator.ts:60 | adding a setter keeps the setters distinct by id and adds exactly that data source |
| `ActionGenerator.TransformCodeSetters` | packages/react-sdk/src/component-generator.ts:52-68 | after one clause, a data source is among the setters iff it was before or the clause assigns it |
| `ActionGenerator.ClausesSetters` | packages/react-sdk/src/component-generator.ts:43-71 | after all clauses, a data source is a setter iff it was before or some clause assigns it |
| `ActionGenerator.ActionSetters` | packages/react-sdk/src/component-generator.ts:43-80 | the setters are distinct, and a data source is one exactly when the action assigns it in some clause |
| `ActionGenerator.SetterStep` | packages/react-sdk/src/component-generator.ts:73-80 | one setter line is `setterName(valueName)` under the scope names of `set$<id>` and `<id>` |
| `ActionGenerator.SetterKeysPresent` | packages/react-sdk/src/component-generator.ts:73-78 | after the setter loop every setter's value key and setter key are named |
| `ActionGenerator.SetterCallsText` | packages/react-sdk/src/component-generator.ts:72-80 | the setter loop emits exactly one setter call per setter, in order, with the final names |
| `ActionGenerator.ActionSpec` | packages/react-sdk/src/component-generator.ts:34-88 | generating an action only grows the ledger and keeps it injective |
| `ActionGenerator.ActionShape` | packages/react-sdk/src/component-generator.ts:43-87 | the action is `(args) => {` + the rewritten clause bodies, each on its own line + one setter call per setter + `}`, with the last clause's args; bodies and calls are read with the final ledger |
| `ActionGenerator.ActionSetterNamesDistinct` | packages/react-sdk/src/component-generator.ts:75-79 | distinct setters are called under distinct names |
| `ActionGenerator.EmptyAction` | packages/react-sdk/src/component-generator.ts:44-45 | an action without clauses is `() => {\n}` and names nothing |
| `ActionGenerator.TransformClause` | packages/react-sdk/src/component-generator.ts:49-69 | the loop over one clause's pieces computes `TransformCode` and updates the scope as it does |
| `ActionGenerator.GenerateAction` | packages/react-sdk/src/component-generator.ts:34-88 | the two loops emit exactly `ActionSpec`'s text and leave the scope with its ledger |
| `ComponentGenerator.PropValueSpec` | packages/react-sdk/src/component-generator.ts:99-131 | a literal gives its JSON text with no new names; a prop has no value exactly when it is an asset, a page or a parameter without data source; a bound parameter gives its data source's scope name; only an expression with an unbound identifier fails |
| `ComponentGenerator.GeneratePropValue` | packages/react-sdk/src/component-generator.ts:90-132 | the value and scope update are those of `PropValueSpec` |
| `ComponentGenerator.ScanOne` | packages/react-sdk/src/component-generator.ts:168-205 | a prop of another instance changes nothing; an own prop fails exactly when its value does, and draws exactly its value's names; a prop that is not the show prop, a collection prop or `className` appends `name={value}` when it has a value and nothing otherwise; every other prop leaves the attributes as they are |
| `ComponentGenerator.ScanProps` | packages/react-sdk/src/component-generator.ts:168-206 | the props loop only grows the ledger, injectively |
| `ComponentGenerator.ScanHidden` | packages/react-sdk/src/component-generator.ts:179-182 | a show prop equal to `false` hides the element whatever follows |
| `ComponentGenerator.ScanWithoutShow` | packages/react-sdk/src/component-generator.ts:174-186 | without a show prop for the instance, no guard condition is set and nothing is hidden |
| `ComponentGenerator.ScanKeepsCollection` | packages/react-sdk/src/component-generator.ts:187-195 | the collection's data (item) binding changes only through a prop named `data` (`item`) |
| `ComponentGenerator.ScanClasses` | packages/react-sdk/src/component-generator.ts:196-202 | the classes are the class-map classes followed by the string `className` props, in order |
| `ComponentGenerator.ScanAttrsGrow` | packages/react-sdk/src/component-generator.ts:203-205 | attributes are only appended, after the header |
| `ComponentGenerator.Relevant` | packages/react-sdk/src/component-generator.ts:169-178 | the props that matter belong to the instance and are not a `true` show prop |
| `ComponentGenerator.ScanRelevant` | packages/react-sdk/src/component-generator.ts:168-178 | props of other instances and `true` show props do not change the scan |
| `ComponentGenerator.LastShowWins` | packages/react-sdk/src/component-generator.ts:172-185 | the guard condition is the value of the last show prop, which is never `false` on a visible element: none when that prop has no value, and the earlier condition when it is `true` |
| `ComponentGenerator.ScanLiterals` | packages/react-sdk/src/component-generator.ts:168-209 | when every prop of the instance is a literal, the attributes are the header followed by `name={json}` for each non-`className` prop in order, and the classes are the class-map classes followed by the string `className` values |
| `ComponentGenerator.ScanValuelessBindings` | packages/react-sdk/src/component-generator.ts:185-193 | when no `data` (`item`) prop of the instance has a value, the collection's data (item) binding ends up without a value or as it started |
| `ComponentGenerator.ElementSpec` | packages/react-sdk/src/component-generator.ts:134-258 | generating an element only grows the ledger, injectively |
| `ComponentGenerator.ElementFromScan` | packages/react-sdk/src/component-generator.ts:212-257 | rendering after the props loop only grows the ledger, injectively |
| `ComponentGenerator.GenerateJsxElement` | packages/react-sdk/src/component-generator.ts:134-258 | the loop with its early returns emits exactly `ElementSpec` and updates the scope as it does |
| `ComponentGenerator.RenderElement` | packages/react-sdk/src/component-generator.ts:212-257 | the code after the props loop emits exactly `ElementFromScan` and updates the scope as it does |
| `ComponentGenerator.ElementIgnoresIrrelevantProps` | packages/react-sdk/src/component-generator.ts:169-178 | the element is the same when only the relevant props are given |
| `ComponentGenerator.AlwaysHiddenElement` | packages/react-sdk/src/component-generator.ts:179-182 | an instance with a `false` show prop renders as `""` |
| `ComponentGenerator.CollectionWithoutBinding` | packages/react-sdk/src/component-generator.ts:187-226 | a collection none of whose `data` props, or none of whose `item` props, has a value (there is none, or each is an asset, a page or a parameter without data source) renders as `""` |
| `ComponentGenerator.ValuelessPropIgnored` | packages/react-sdk/src/component-generator.ts:203-205 | a prop without a value that is not the show prop or a collection binding adds no attribute: the element is the same as without it |
| `ComponentGenerator.LiteralElement` | packages/react-sdk/src/component-generator.ts:154-251 | an ordinary element whose props are all literals is exactly its component tag, with the header, then `name={json}` per literal prop in order, then the merged `className`, self-closing iff it has no children |
| `ComponentGenerator.ShowGuardsElement` | packages/react-sdk/src/component-generator.ts:212-255 | a non-empty show condition wraps exactly the unguarded rendering in `{(cond) &&` ... `}`; no condition (no show prop, or one without a value) or an empty one leaves the unguarded rendering as it is |
| `ComponentGenerator.CollectionMapsData` | packages/react-sdk/src/component-generator.ts:227-233 | a bound collection is a `?.map` over its data, with the index variable named under `<id>-index`, and no attributes |
| `ComponentGenerator.GuardWraps` | packages/react-sdk/src/component-generator.ts:212-255 | a non-empty show condition (on a collection, with both bindings) makes the element `{(cond) &&`, the element rendered without the condition, and `}` |
| `ComponentGenerator.SlotIsTransparent` | packages/react-sdk/src/component-generator.ts:234-236 | a slot without show prop renders exactly its children |
| `ComponentGenerator.FragmentIsReference` | packages/react-sdk/src/component-generator.ts:237-240 | a Fragment renders as `<Name />`, named under the instance id |
| `ComponentGenerator.OrdinaryElement` | packages/react-sdk/src/component-generator.ts:241-251 | any other element is named after its component; its attributes start with the id, component and (if indexed) index attributes and end with the merged `className`; it is self-closing iff the instance has no children |
| `ComponentGenerator.OrdinaryScan` | packages/react-sdk/src/component-generator.ts:154-210 | without show props the props loop leaves the element visible and unguarded, appends the string `className` props to the class-map classes, and keeps the header attributes in front |
| `ComponentGenerator.OrdinaryFromScan` | packages/react-sdk/src/component-generator.ts:241-251 | an unguarded ordinary element is its component tag, named under the component, with the scanned attributes followed by the merged `className` |
| `ComponentGenerator.ChildStep` | packages/react-sdk/src/component-generator.ts:278-323 | one child only grows the ledger, injectively |
| `ComponentGenerator.ChildrenFrom` | packages/react-sdk/src/component-generator.ts:277-325 | the children loop only grows the ledger, injectively |
| `ComponentGenerator.GenerateJsxChildren` | packages/react-sdk/src/component-generator.ts:260-325 | the recursive loop emits exactly `ChildrenFrom` and updates the scope as it does |
| `ComponentGenerator.ChildStepAppends` | packages/react-sdk/src/component-generator.ts:279-303 | text and id children append their output to what was generated before |
| `ComponentGenerator.ExpressionChildReplaces` | packages/react-sdk/src/component-generator.ts:288-295 | once an expression child occurs, the text generated before the children no longer matters, because the expression replaces it |
| `ComponentGenerator.SingleLineText` | packages/react-sdk/src/component-generator.ts:279-286 | a text child without a newline renders as `{"text"}` on one line |
| `ComponentGenerator.MissingChildrenSkipped` | packages/react-sdk/src/component-generator.ts:297-302 | id children missing from the instances contribute nothing |
| `ComponentGenerator.ParamsFrom` | packages/react-sdk/src/component-generator.ts:356-364 | the parameter loop only grows the ledger, injectively |
| `ComponentGenerator.PropsSignature` | packages/react-sdk/src/component-generator.ts:352-368 | without parameters the signature is empty and names nothing |
| `ComponentGenerator.ParamStep` | packages/react-sdk/src/component-generator.ts:357-363 | a parameter without data source is skipped; otherwise it appends `name: value, ` with its data source's scope name and `name: any; ` |
| `ComponentGenerator.ParamsText` | packages/react-sdk/src/component-generator.ts:356-364 | the parameter loop appends, for each parameter whose data source exists, in order, its destructuring entry read with the final ledger and its type entry |
| `ComponentGenerator.SignatureText` | packages/react-sdk/src/component-generator.ts:352-368 | with parameters the signature is `{ <entries>}: { <types>}`, one entry `name: value, ` and one type `name: any; ` per parameter whose data source exists |
| `ComponentGenerator.Declaration` | packages/react-sdk/src/component-generator.ts:375-403 | a data source outside the component's own subtree (or a parameter) declares nothing; a variable appends `let [value, setter] = useState<any>(json)` with its value and `set$` names; a resource appends `let value = useResource("resource")` with the quoted name of its resource |
| `ComponentGenerator.DeclarationsFrom` | packages/react-sdk/src/component-generator.ts:374-404 | the declarations loop only grows the ledger, injectively |
| `ComponentGenerator.DeclarationsText` | packages/react-sdk/src/component-generator.ts:374-404 | the declarations loop appends the declaration of every declared data source, in order, read with the final ledger |
| `ComponentGenerator.DeclaredOnly` | packages/react-sdk/src/component-generator.ts:376-382 | the declared data sources are exactly those scoped to an instance of the subtree without slot descendants |
| `ComponentGenerator.DeclarationsOnlyLocal` | packages/react-sdk/src/component-generator.ts:376-382 | the declarations are those of the declared data sources alone |
| `ComponentGenerator.SlotContentNotDeclared` | packages/react-sdk/src/component-generator.ts:370-382 | a data source scoped to slot content is not declared |
| `ComponentGenerator.ComponentSpec` | packages/react-sdk/src/component-generator.ts:348-351 | a missing root instance gives `""`; generation only grows the ledger, injectively |
| `ComponentGenerator.ComponentDeclarations` | packages/react-sdk/src/component-generator.ts:370-429 | the component is `const name = (signature) => {`, then the declaration lines of exactly the data sources scoped inside the tree (slot content excluded), read with the final ledger, then `return` JSX and `}` |
| `ComponentGenerator.GenerateWebstudioComponent` | packages/react-sdk/src/component-generator.ts:327-430 | the method emits exactly `ComponentSpec` and updates the scope as it does |
| `ComponentGenerator.GeneratePropsSignature` | packages/react-sdk/src/component-generator.ts:352-368 | the destructuring loop emits exactly `PropsSignature` and updates the scope as it does |
| `ComponentGenerator.GenerateDeclarations` | packages/react-sdk/src/component-generator.ts:370-404 | the declarations loop emits exactly `DeclarationsFrom` and updates the scope as it does |
| `IndexableStore.GroupIndex.constructor` | apps/builder/app/shared/indexable-store.ts:9-15 | a new index has no groups and keeps the given `groupBy` |
| `IndexableStore.GroupIndex.InternalSet` | apps/builder/app/shared/indexable-store.ts:16-26 | the entry goes into the group named by a truthy group key, created on first use; otherwise nothing changes |
| `IndexableStore.GroupIndex.InternalDelete` | apps/builder/app/shared/indexable-store.ts:27-31 | the key is removed from every group |
| `IndexableStore.GroupIndex.Get` | apps/builder/app/shared/indexable-store.ts:32-34 | as written, `get` always yields `undefined` |
| `IndexableStore.GroupIndex.Lookup` | apps/builder/app/shared/indexable-store.ts:32-34 | the intended `get`: the entry stored under the key in the group, if any |
| `IndexableStore.GetDropsLookup` | apps/builder/app/shared/indexable-store.ts:16-34 | right after an entry is stored under a group, `get` yields nothing while the lookup finds the entry |
| `IndexableStore.InsertedThenFound` | apps/builder/app/shared/indexable-store.ts:16-26 | after inserting under a truthy group key the entry is found there, and that group exists; a falsy key changes nothing |
| `IndexableStore.InsertedElsewhereUnchanged` | apps/builder/app/shared/indexable-store.ts:16-26 | inserting changes no other group or key |
| `IndexableStore.StaleEntryPersists` | apps/builder/app/shared/indexable-store.ts:16-26 | re-setting a key under another group leaves its old entry in the old group |
| `IndexableStore.RemovedEverywhere` | apps/builder/app/shared/indexable-store.ts:27-31 | after deleting, no group holds the key, and every other entry is unchanged |
| `IndexableStore.Store.constructor` | apps/builder/app/shared/indexable-store.ts:37-39 | a new store is empty and has no indexes |
| `IndexableStore.Store.AddIndex` | apps/builder/app/shared/indexable-store.ts:39 | `indexes.add` registers an index once |
| `IndexableStore.Store.Get` | apps/builder/app/shared/indexable-store.ts:40-42 | `get` is the stored value, or nothing for an absent key |
| `IndexableStore.Store.Set` | apps/builder/app/shared/indexable-store.ts:43-48 | every registered index inserts the entry, then the store maps the key to the value and keeps every other key |
| `IndexableStore.Store.Delete` | apps/builder/app/shared/indexable-store.ts:49-54 | every registered index drops the key, then the store drops it |
| `PagesTree.FolderMap` | apps/builder/app/builder/features/pages/pages.tsx:155-157 | the folders map has exactly the folders' ids, each mapped to a folder with that id |
| `PagesTree.PageMap` | apps/builder/app/builder/features/pages/pages.tsx:158-159 | the pages map has the pages' ids plus the home page, which always resolves to itself |
| `PagesTree.ExpandedState` | apps/builder/app/builder/features/pages/pages.tsx:171-174 | `isExpanded` is defined exactly for nested folders with children, and then tells membership in the expanded set |
| `PagesTree.OwnRow` | apps/builder/app/builder/features/pages/pages.tsx:176-186 | a folder other than the root has a row of its own, at its level, with no drop target yet |
| `PagesTree.PageRow` | apps/builder/app/builder/features/pages/pages.tsx:195-204 | a page has a row of its own, at its level, with no drop target yet |
| `PagesTree.Patch` | apps/builder/app/builder/features/pages/pages.tsx:206-212 | marking the drop target changes no row's id, level, kind, expansion or last-child flag, and sets only the current drop target |
| `PagesTree.VisitGood` | apps/builder/app/builder/features/pages/pages.tsx:160-213 | every row resolves to a page or a non-root folder and lies at the item's level or deeper; the rows at the item's level are its own, carry its `isLastChild`, and carry the drop target only when it points at (parent, index) |
| `PagesTree.VisitChildrenGood` | apps/builder/app/builder/features/pages/pages.tsx:187-192 | the rows at the children's level name a child, are last exactly for the last child, and carry the drop target only at that child's index |
| `PagesTree.FlatTree` | apps/builder/app/builder/features/pages/pages.tsx:148-217 | no rows before the pages load; otherwise the root folder has no row, every row resolves, and only a page with the root's id can sit at level 0 |
| `PagesTree.RootChildrenFirst` | apps/builder/app/builder/features/pages/pages.tsx:176-193 | the root folder's children are always laid out, from level 1 |
| `PagesTree.FolderRowFirst` | apps/builder/app/builder/features/pages/pages.tsx:171-186 | a folder's row comes before its children, with its level, `isLastChild` and `isExpanded` |
| `PagesTree.CollapsedFolderAlone` | apps/builder/app/builder/features/pages/pages.tsx:171-192 | a collapsed folder (or one without children) contributes only its own row |
| `PagesTree.DropTargetMarked` | apps/builder/app/builder/features/pages/pages.tsx:206-212 | the item the drop target points at carries it |
| `PagesTree.Traverse` | apps/builder/app/builder/features/pages/pages.tsx:160-213 | `traverse` appends exactly the item's rows to the list |
| `PagesTree.TraverseFolder` | apps/builder/app/builder/features/pages/pages.tsx:167-194 | the folder branch appends the folder's row and, when open, its children's rows, and remembers the folder row's position |
| `PagesTree.TraverseChildren` | apps/builder/app/builder/features/pages/pages.tsx:187-192 | the loop over a folder's children appends their rows in order |
| `PagesTree.FlatPagesTree` | apps/builder/app/builder/features/pages/pages.tsx:148-217 | `$flatPagesTree` computes `FlatTree` |
| `PagesTree.HasFolder` | apps/builder/app/builder/features/pages/pages.tsx:115 | `folders.some(...)` holds iff some folder has the id |
| `PagesTree.IsFolder` | apps/builder/app/builder/features/pages/pages.tsx:114-116 | an id is a folder iff it is the new folder's id or names a folder |
| `PagesTree.HandleExpand` | apps/builder/app/builder/features/pages/pages.tsx:242-255 | the copy of the expanded set gains every item when expanding and loses every item when collapsing |
| `PagesTree.CollapseHides` | apps/builder/app/builder/features/pages/pages.tsx:242-255 | after collapsing a folder, traversal shows only its own row |

## Left out

- `Naming.Scope` is the contract the generator relies on: stable names per key, distinct names for
  distinct keys, and the preferred name when it is free. The `Scope` implementation is not part of
  this model. Its naming scheme for taken names (`preferred_1`, `preferred_2`, …) and its
  sanitising of identifiers are this model's own choices.
- Expression parsing, validation and printing are not part of this model, because
  `packages/react-sdk/src/expression.ts` is not among the modelled sources. Code arrives already
  split into verbatim pieces and identifiers, each identifier with an "is assigned" flag.
  - `generateExpression` is modelled as failing (`UnknownDependency`) on an identifier that denotes
    no data source, where the engine raises.
  - The `$ws$dataSource$` prefix of data source variables is assumed, as is its plain
    (unmangled) encoding of ids.
  - The `validateExpression` options (`optional`, `effectful`) are not modelled.
- The `console.error` report of an unknown identifier in an action is left out; the identifier is kept.
- Several constants are imported from files that are not part of this model, so their values are
  assumed:
  - the attribute names `data-ws-id`, `data-ws-component`, `data-ws-index`, `data-ws-show` from `props.ts`;
  - the component names `ws:collection` and `Slot` from `core-components.ts`;
  - the root folder id `root` from the SDK;
  - the new-folder id `new-folder` from `folder-settings`.
- `Json.Stringify` covers null, booleans, integers, strings, arrays and objects. Floating-point
  number formatting is not modelled, and numbers are integers. Injectivity is proved for strings,
  which is what the `className` and attribute texts need.
- `InstancesUtils.ParseComponentName` splits at the first colon. For names with several colons the
  implementation is not among the modelled sources.
- The implementations of `findTreeInstanceIds`, `findTreeInstanceIdsExcludingSlotDescendants` and
  `findFragmentInstanceIds` are not part of this model. They are modelled from the test expectations.
  Instances whose children form a cycle are excluded by the rank precondition.
- `PagesTree.FlatTree` and `PagesTree.Traverse` require every folder that could be opened (the
  root, and every expanded folder) to be ranked, child below parent. With a cycle through expanded
  folders that `traverse` reaches, the source's recursion would not end. The precondition also
  excludes some inputs on which the source does terminate:
  - a cycle of expanded folders that the root never reaches;
  - the root listed as a child of one of its expanded descendants while `root` itself is not in the
    expanded set. At that deeper level `traverse` gives the root no row and does not open it again
    (`apps/builder/app/builder/features/pages/pages.tsx:171-187`).
- `PagesTree.HandleExpand` takes the items to update as a parameter.
  - `getAllChildrenAndSelf` and `reparentOrphansMutable` (`page-utils`) are not part of this model.
  - The `$expandedItems`, `$pages` and `$dropTarget` atoms are plain parameters.
  - React rendering, the sortable tree, editing panels and the server sync transaction are left out.
- `IndexableStore.Store` keeps its indexes in a sequence without duplicates, standing in for the
  `Set` of the source.
  - Inner group maps are values, so the aliasing between a group map and the `#store` entry holding
    it is not modelled. The source only ever updates them together.
- Props and data sources are sequences looked up by id, so the first occurrence of an id wins
  where a JavaScript `Map` built from a list would keep the last. Project data has unique ids, so
  the two agree on it.

## Findings

| source | as written | input that shows it | evidently intended | confidence | as-written member | corrected member |
|---|---|---|---|---|---|---|
| apps/builder/app/shared/indexable-store.ts:32-34 | `get` evaluates the lookup in a block body without `return`, so it always yields `undefined` | `internalSet("a", v)` with `groupBy` giving `"g"`, then `get("g", "a")` | `get("g", "a")` yields `v` | high; not executed | `IndexableStore.GroupIndex.Get` (shown by `IndexableStore.GetDropsLookup`) | `IndexableStore.GroupIndex.Lookup` (with `IndexableStore.InsertedThenFound`) |
