# JupyterGIS core, modelled in Dafny

This project models the core of JupyterGIS, a collaborative GIS editor for JupyterLab. It covers the following parts:

- **The document model (`JupyterGISModel`).** It keeps the layers, sources, layer tree and map options of a shared `.jGIS` document. It flattens the layer tree into render order. It finds, adds, renames and removes layer groups.
- **The application commands.** These are undo/redo enablement, removing and renaming the selected layers and groups, and the one-time patch of the form schemas.
- **The symbology dialogs.** These are the single-band pseudo-colour dialog, the colour-expression dialog and the graduated vector symbology. All three read the stop rows out of a style expression, edit them and write a new expression back.
- **The STAC browser hooks.** The search hook manages the filter state and its persistence, the query body, pages and results. The generic-filter hook covers collections, the bounding box, submit and asset filtering.
- **The story-segment layer form.** This includes its source-properties field.

Each core file is one module:

| module | file |
|---|---|
| `GisModel` and `LayerTree` | `model.ts` |
| `Commands` | `commands.ts` |
| `SingleBandPseudoColor` | `SingleBandPseudoColor.tsx` |
| `ColorExpressionDialog` | `colorExpressionDialog.tsx` |
| `Graduated` | `Graduated.tsx` |
| `VectorUtils` | `symbologyUtils.ts` |
| `StacTypes` | `types.ts` |
| `StacSearch` | `useStacSearch.ts` |
| `StacGenericFilter` | `useStacGenericFilter.ts` |
| `StorySegmentForm` | `storySegmentLayerForm.ts` |
| `SourcePropertiesField` | `SourcePropertiesField.tsx` |

Four modules are shared:

- **`Json`** models JavaScript values: truthiness, indexing, optional chaining, object spread and `String(n)`.
- **`JsArray`** models `splice`.
- **`StyleExpr`** models flat stop/output pairs.
- **`SharedDocument`** is a sequential stand-in for the replicated document.

Objects whose fields the code updates are classes with `modifies` clauses:

- the model, `JupyterGISModel`;
- the shared document, `SharedDoc`;
- the state database, `StateDb`;
- the hooks' state, `StacSearchState` and `GenericFilterState`;
- the form schemas, `FormSchemas` and `FormSchemaStore`.

Loops in the source are methods with loop invariants. Each is proved equal to a specification function, and the properties are proved about that function:

- `layerTreeRecursion`;
- `findGroupPath`;
- the stop-row builders;
- the product-filter loops;
- the asset filter;
- the story-segment search;
- the form-schema patch.

## Model

| member | source | states |
|---|---|---|
| LayerTree.LayerTreeRecursion | packages/schema/src/model.ts:547-559 | appending the recursive walk's leaves to `current` gives `current` followed by the pre-order leaf ids of the tree |
| LayerTree.FlattenLength | packages/schema/src/model.ts:547-559 | the render order has exactly one id per leaf of the tree |
| LayerTree.FlattenHasEveryLeaf | packages/schema/src/model.ts:547-559 | every layer reachable by a path appears in the render order |
| LayerTree.FlattenOnlyLeaves | packages/schema/src/model.ts:547-559 | every id in the render order is a leaf reachable by some path |
| LayerTree.FlattenAppend | packages/schema/src/model.ts:551-557 | the render order of two lists of items is the concatenation of their render orders |
| LayerTree.FindGroupPath | packages/schema/src/model.ts:568-594 | the recursive search returns the accumulated indexes extended by the path to the first group of that name in pre-order, or the indexes unchanged when there is none |
| LayerTree.FindFrom | packages/schema/src/model.ts:573-592 | a path found among the items from `i` on starts at an index of at least `i` |
| LayerTree.FindFromSound | packages/schema/src/model.ts:580-581 | a found path leads to a group carrying the searched name |
| LayerTree.FindFromNone | packages/schema/src/model.ts:593 | when nothing is found, no group of that name exists from `i` on |
| LayerTree.FindFromFirst | packages/schema/src/model.ts:573-592 | the found group comes first in pre-order among all groups of that name |
| LayerTree.FindGroupSpec | packages/schema/src/model.ts:568-594 | no path exactly when no group of that name exists anywhere; otherwise the path leads to such a group, every prefix is a group, and no other match precedes it in pre-order |
| LayerTree.FindUnique | packages/schema/src/model.ts:568-594 | a group that is the only one of its name is the one found |
| LayerTree.GroupPathPrefixes | packages/schema/src/model.ts:477-483 | every non-empty prefix of a group path leads to a group, so the walk down from the top-level group only passes through groups |
| LayerTree.PreOrderAntisymmetric | packages/schema/src/model.ts:573-592 | the pre-order in which the search visits groups is antisymmetric, so the first match is unique |
| LayerTree.RemoveGroupsAppend | packages/schema/src/model.ts:430-442 | the filtering reduce treats siblings independently and in order |
| LayerTree.RemoveGroupsLeavesNone | packages/schema/src/model.ts:426-443 | after `removeLayerGroupItem` no group of that name is left at any depth |
| LayerTree.RemoveGroupsAbsent | packages/schema/src/model.ts:426-443 | a tree without a group of that name comes back unchanged |
| LayerTree.RemoveGroupsIdempotent | packages/schema/src/model.ts:426-443 | filtering twice is the same as filtering once |
| LayerTree.RemoveGroupsKeepsOrder | packages/schema/src/model.ts:426-443 | the surviving layers keep their relative render order |
| LayerTree.RemoveGroupsKeepsLeaf | packages/schema/src/model.ts:426-443 | a layer with no group of that name on its path, at any depth, is still in the render order after the removal |
| LayerTree.RemoveGroupsLeafOrigin | packages/schema/src/model.ts:426-443 | every layer left after the removal has a path in the old tree with no group of that name on it |
| LayerTree.RemoveGroupsKeepsGroup | packages/schema/src/model.ts:426-443 | a group with no group of that name on its path survives under its own name, holding its own subtree filtered |
| LayerTree.ReplaceAtEffect | packages/schema/src/model.ts:363-369 | rebuilding along a path changes only the top-level slot on that path, and the path now leads to the new entry |
| LayerTree.RenameKeepsOtherPaths | packages/schema/src/model.ts:413-415 | renaming the group at a path keeps the shape of the tree, and only that group's name differs |
| LayerTree.FlattenReplaceAt | packages/schema/src/model.ts:363-369 | replacing the entry at a path replaces exactly its leaves in the render order |
| GisModel.Installed | packages/schema/src/model.ts:163-172 | `fromString` installs each part of the content, or its default when absent: `{}`, `{}`, `[]`, and options at latitude, longitude and zoom 0 |
| GisModel.SaveLoadRoundTrip | packages/schema/src/model.ts:150-175 | loading the content `getContent` hands out installs the same content again |
| GisModel.LayerTreeInfo | packages/schema/src/model.ts:451-490 | index -1 and no groups when no group matches; otherwise the top-level group on the path, the matched group below it and its index |
| GisModel.TreeAfterAddSpec | packages/schema/src/model.ts:331-377 | without a parent name the item is spliced into the root at `index ?? length`; an unknown parent changes nothing; under a known parent the item is spliced into that group, only its top-level slot changes, and the group keeps its name |
| GisModel.TreeAfterAddLeaves | packages/schema/src/model.ts:331-377 | a placed item adds exactly its own leaves to the render order |
| GisModel.InsertLeaves | packages/schema/src/model.ts:372-375 | a root insertion adds the item's leaves at the clamped splice position |
| GisModel.AddGroupSpec | packages/schema/src/model.ts:246-257 | afterwards a group of that name exists iff one existed or the new group could be placed; an existing name leaves the tree unchanged |
| GisModel.AddLayerLeaves | packages/schema/src/model.ts:269-280 | adding a layer reference adds one occurrence of the id to the render order, even for an id already in the tree |
| GisModel.RenameSpec | packages/schema/src/model.ts:379-419 | only the found group's name changes; its children, the other top-level slots and the render order stay; no match means no change |
| GisModel.RenameRoundTrip | packages/schema/src/model.ts:379-419 | renaming a group to an unused name and back restores the tree |
| GisModel.CorrectedTreeAfterRemove | packages/schema/src/model.ts:421-448 | the intended removal: no group of that name remains; a layer survives iff no group of that name lies on its path; every group outside such a group survives under its name; the survivors keep their render order; nothing changes without a match |
| GisModel.RemoveNotFound | packages/schema/src/model.ts:445-448 | without a match the write at index -1 changes nothing |
| GisModel.RemoveGroupsAroundFirst | packages/schema/src/model.ts:424-443 | the filtered tree splits around the first match's top-level slot, and everything before it survives unchanged |
| GisModel.RemoveNested | packages/schema/src/model.ts:445-448 | a nested first match: its top-level group is written back filtered, and no other slot changes |
| GisModel.RemoveTopLevelLastKeepsTree | packages/schema/src/model.ts:445-448 | a top-level first match in the last slot: the filtered copy is one shorter, so the write is of undefined and the tree keeps the group |
| GisModel.RemoveNestedUniqueAgrees | packages/schema/src/model.ts:421-448 | when the only group of that name is nested, the code as written and the intended removal agree |
| GisModel.RemoveTopLevelDuplicatesSibling | packages/schema/src/model.ts:445-448 | on `[group "g", "a"]`, removing "g" as written leaves `["a", "a"]` |
| GisModel.RemoveTopLevelWithLeafAfter | packages/schema/src/model.ts:445-448 | a top-level first match followed by a layer leaves that layer in both slots |
| GisModel.Rebuild | packages/schema/src/model.ts:476-483 | writing the rebuilt top-level group back into its slot gives the same tree as replacing the entry at the full path, which is what mutating the aliased working group does |
| GisModel.JupyterGISModel.constructor | packages/schema/src/model.ts:33-42 | the model wraps the given shared document, not disposed and not dirty |
| GisModel.JupyterGISModel.FromString | packages/schema/src/model.ts:154-175 | unparsable or invalid content throws before anything is written; otherwise the installed content is stored and the model is marked dirty |
| GisModel.JupyterGISModel.Dispose | packages/schema/src/model.ts:140-147 | the first call disposes the model and its document; later calls change nothing |
| GisModel.JupyterGISModel.GetOrderedLayerIds | packages/schema/src/model.ts:535-537 | the layer ids in render order, i.e. the pre-order leaves of the tree |
| GisModel.JupyterGISModel.GetSourcesByType | packages/schema/src/model.ts:226-235 | the result maps exactly the ids of sources of that type, each to its source's name |
| GisModel.JupyterGISModel.GetLayerTreeInfo | packages/schema/src/model.ts:451-490 | the walk down the found path returns what `LayerTreeInfo` specifies |
| GisModel.JupyterGISModel.AddLayerTreeItem | packages/schema/src/model.ts:331-377 | the stored tree becomes the one `TreeAfterAddSpec` describes; layers, sources and options are unchanged |
| GisModel.JupyterGISModel.AddGroup | packages/schema/src/model.ts:246-257 | the stored tree becomes the one `AddGroupSpec` describes: unchanged for an existing group name, otherwise with an empty group added as an item; layers, sources and options are unchanged |
| GisModel.JupyterGISModel.AddLayer | packages/schema/src/model.ts:269-280 | the layer is stored only under a new id, and the tree always gains a reference to the id |
| GisModel.JupyterGISModel.RenameLayerGroup | packages/schema/src/model.ts:410-418 | the stored tree becomes the renamed tree of `RenameSpec` |
| GisModel.JupyterGISModel.RemoveLayerGroup | packages/schema/src/model.ts:421-448 | the stored tree becomes the tree after the code as written: the filtered copy's entry at the first match's top-level index is written at that index |
| SharedDocument.SharedDoc.GetLayer | packages/schema/src/model.ts:214-216 | the layer record under the id, None when there is none |
| SharedDocument.SharedDoc.GetSource | packages/schema/src/model.ts:218-220 | the source record under the id, None when there is none |
| SharedDocument.SharedDoc.AddLayerTreeItem | packages/schema/src/model.ts:372-375 | the item is inserted into the top-level list at the clamped splice position |
| SharedDocument.SharedDoc.UpdateLayerTreeItem | packages/schema/src/model.ts:445-448 | top-level slot `index` is replaced when it is in range and the item is defined; otherwise the tree is unchanged (an assumption about the store, see "Left out") |
| SharedDocument.WriteSlot | packages/schema/src/model.ts:445-448 | the top-level list after `updateLayerTreeItem`: same length, slot `index` replaced when in range and the item defined, every other slot kept; an undefined item or an index out of range writes nothing |
| SharedDocument.SharedDoc.SetContent | packages/schema/src/model.ts:163-172 | the four parts of the document become those of the content |
| JsArray.SpliceStart | packages/schema/src/model.ts:364-368 | a negative start counts from the end, and the position is clamped into `[0, len]` |
| JsArray.Insert | packages/schema/src/model.ts:364-368 | `splice(start, 0, x)` puts `x` at the clamped position with the other elements around it in order |
| JsArray.Delete | packages/base/src/dialogs/components/symbology/SingleBandPseudoColor.tsx:258-263 | `splice(start, 1)` drops the element at the clamped position, or nothing at the end |
| JsArray.DeleteInserted | packages/base/src/dialogs/components/symbology/SingleBandPseudoColor.tsx:248-263 | deleting what was just inserted at an in-range position gives the array back |
| Json.SpreadEntries | packages/base/src/commands.ts:261-264 | object spread copies exactly an object's own fields, and copies nothing from undefined, null, booleans or numbers |
| Commands.IsEnabled | packages/base/src/commands.ts:30-34 | undo, redo and the layer browser are enabled iff there is a current widget whose document is editable |
| Commands.SpreadItems | packages/base/src/commands.ts:260 | `[...v]` lists an array's items or a string's characters and throws on any other value |
| Commands.PatchSchemaSpec | packages/base/src/commands.ts:259-264 | a schema with a `required` array gets `required = ['name', ...old]` and `properties` holds `name` and every old property, the schema's own `name` winning (key order is not modelled), and every other key is kept |
| Commands.PatchSchemaThrows | packages/base/src/commands.ts:260 | a schema whose `required` is missing or not iterable throws |
| Commands.PatchAllKeys | packages/base/src/commands.ts:257-265 | without a throw, the keys stored are those already stored plus those of the registry |
| Commands.PatchAllValues | packages/base/src/commands.ts:257-265 | without a throw, each registered schema is stored patched under its key, the last one winning for a repeated key |
| Commands.PatchAllKeeps | packages/base/src/commands.ts:257-265 | a key the registry does not name keeps its stored value |
| Commands.UpdateFormSchemaTwice | packages/base/src/commands.ts:254-256 | a second call, finding a non-empty store, leaves it as the first call left it |
| Commands.FormSchemaStore.Update | packages/base/src/commands.ts:251-266 | the store and the throw flag are those `UpdateFormSchema` specifies |
| Commands.Keys | packages/base/src/commands.ts:84 | `Object.keys(selected)`: one key per selected entry, in order |
| Commands.RemoveSelectedLayers | packages/base/src/commands.ts:77-89 | without a selection nothing changes; otherwise exactly the selected keys leave the layer store; the tree, sources and options are untouched |
| Commands.RemoveSelectedGroupsSkips | packages/base/src/commands.ts:152-155 | selected entries that are not groups change nothing |
| Commands.RemoveSelectedGroupsOne | packages/base/src/commands.ts:152-155 | one selected group is removed as `removeLayerGroup` removes it |
| Commands.RemoveGroups | packages/base/src/commands.ts:141-157 | without a selection nothing changes; otherwise the tree becomes the one left by removing each selected group in turn, and layers, sources and options are unchanged |
| Commands.RenameSelectedLayersOnlyNames | packages/base/src/commands.ts:105-137 | renaming keeps the set of layer ids and every field of every layer except its name |
| Commands.RenameSelectedLayersUnselected | packages/base/src/commands.ts:105-137 | a layer that is not selected keeps its record |
| Commands.RenameLayers | packages/base/src/commands.ts:91-139 | without a selection nothing changes; otherwise each selected layer takes its prompt's answer as name unless the answer is blank or unchanged; the tree, sources and options stay |
| Commands.RenameSelectedGroupsFlatten | packages/base/src/commands.ts:173-204 | renaming groups never changes the render order of the layers |
| Commands.BlankAnswerSkips | packages/base/src/commands.ts:196-199 | an answer that trims to the empty string renames nothing |
| Commands.RenameGroups | packages/base/src/commands.ts:159-206 | without a selection nothing changes; otherwise the tree is renamed group by group as the prompts say; layers, sources and options stay |
| StyleExpr.PairsOfInterleave | packages/base/src/dialogs/components/symbology/SingleBandPseudoColor.tsx:65-77 | reading pairs after a header gives back exactly the pairs that were laid out flat |
| StyleExpr.InterleaveSnoc | packages/base/src/dialogs/components/symbology/SingleBandPseudoColor.tsx:205-208 | laying out one more pair appends its two entries |
| SingleBandPseudoColor.ParseLayerColor | packages/base/src/dialogs/components/symbology/SingleBandPseudoColor.tsx:46-98 | no colour or a string colour sets nothing; otherwise the function and rows read from `interpolate` or `case`; a condition or `color[1]` that is undefined throws |
| SingleBandPseudoColor.BuildColorExpr | packages/base/src/dialogs/components/symbology/SingleBandPseudoColor.tsx:197-237 | the pushed expression equals the specified `interpolate` or `case` expression, or `[]` without a selected function |
| SingleBandPseudoColor.PushStops | packages/base/src/dialogs/components/symbology/SingleBandPseudoColor.tsx:205-208 | the loop pushes each row's value then its colour after the header |
| SingleBandPseudoColor.BuildCase | packages/base/src/dialogs/components/symbology/SingleBandPseudoColor.tsx:212-236 | a `case` expression with `[op, ['band', b], value]` conditions and the `[0, 0, 0]` fallback last |
| SingleBandPseudoColor.HandleOk | packages/base/src/dialogs/components/symbology/SingleBandPseudoColor.tsx:192-240 | without parameters nothing is written; otherwise the layer is stored with the built expression as its colour |
| SingleBandPseudoColor.ParseAfterBuild | packages/base/src/dialogs/components/symbology/SingleBandPseudoColor.tsx:192-240 | reading back what was written gives the rows and function for linear and exact, the rows for discrete (function only with at least one row), and a throw for `[]` |
| SingleBandPseudoColor.AddStopRow | packages/base/src/dialogs/components/symbology/SingleBandPseudoColor.tsx:248-256 | a black row at value 0 goes first and the others follow in order |
| SingleBandPseudoColor.DeleteAddedRow | packages/base/src/dialogs/components/symbology/SingleBandPseudoColor.tsx:248-263 | deleting row 0 after adding a row restores the rows |
| ColorExpressionDialog.ParseSelectedLayer | packages/base/src/dialogs/colorExpressionDialog.tsx:128-159 | no layer, a falsy colour or a string colour leaves the rows; otherwise the rows are the pairs from index 3 on |
| ColorExpressionDialog.HandleOk | packages/base/src/dialogs/colorExpressionDialog.tsx:170-206 | a missing layer or parameters writes nothing; otherwise the layer is written under `selectedLayerRef` with the NDVI `interpolate` expression of the rows |
| ColorExpressionDialog.ReadAfterOk | packages/base/src/dialogs/colorExpressionDialog.tsx:150-156 | parsing the written expression gives back the rows that were written |
| ColorExpressionDialog.AddStopRow | packages/base/src/dialogs/colorExpressionDialog.tsx:215-223 | a black row at value 0 goes last |
| ColorExpressionDialog.ExpressionAfterAdd | packages/base/src/dialogs/colorExpressionDialog.tsx:215-223 | writing after an added row writes the previous expression followed by `0, [0, 0, 0]` |
| ColorExpressionDialog.Resolve | packages/base/src/dialogs/colorExpressionDialog.tsx:308-316 | 0 closes the dialog, 1 emits the ok signal, any other index does nothing |
| VectorUtils.BuildColorInfo | packages/base/src/dialogs/components/symbology/symbologyUtils.ts:5-46 | the rows returned are those `ColorInfo` specifies for the layer's parameters |
| VectorUtils.ColorInfoSpec | packages/base/src/dialogs/components/symbology/symbologyUtils.ts:7-41 | no colour, a string colour, a missing fill-colour entry or a head other than `interpolate` give no rows; otherwise row j is `(e[3+2j], e[4+2j])`, and an expression of length 3+2n gives n rows |
| VectorUtils.ColorInfoReadsBack | packages/base/src/dialogs/components/symbology/symbologyUtils.ts:28-41 | an `interpolate` fill-colour entry laid out from rows reads back as exactly those rows |
| VectorUtils.FillColorKey | packages/base/src/dialogs/components/symbology/symbologyUtils.ts:18-20 | `circle-fill-color` for circle layers and `fill-color` otherwise |
| VectorUtils.ToRowsFromRows | packages/base/src/dialogs/components/symbology/symbologyUtils.ts:35-38 | stop rows and stop/output pairs convert to each other without loss |
| Graduated.StateDb.Fetch | packages/base/src/dialogs/symbology/vector_layer/types/Graduated.tsx:86 | the value stored under the key, undefined when there is none |
| Graduated.StateDb.Save | packages/base/src/dialogs/symbology/vector_layer/types/Graduated.tsx:106-111 | the value is stored under the key and no other entry changes |
| Graduated.SavedState | packages/base/src/dialogs/symbology/vector_layer/types/Graduated.tsx:106-111 | the previous state's entries, with `renderType`, `graduatedValue` and `graduatedMethod` set |
| Graduated.MethodOptions | packages/base/src/dialogs/symbology/vector_layer/types/Graduated.tsx:82-85 | circle layers are offered `color` and `radius`; other layers keep their options |
| Graduated.SelectionRestored | packages/base/src/dialogs/symbology/vector_layer/types/Graduated.tsx:80-99 | reopening after a save restores the value and method when they are truthy |
| Graduated.SelectionWithoutState | packages/base/src/dialogs/symbology/vector_layer/types/Graduated.tsx:80-99 | without a saved state the first feature property and `color` are selected |
| Graduated.StyleKey | packages/base/src/dialogs/symbology/vector_layer/types/Graduated.tsx:125-143 | `color` goes to the fill, stroke or circle fill by layer type; `radius` goes to the circle radius of a circle layer; anything else goes nowhere |
| Graduated.NewStyle | packages/base/src/dialogs/symbology/vector_layer/types/Graduated.tsx:123-145 | the old style's entries are kept, and the chosen key alone is set to the expression |
| Graduated.BuildExpression | packages/base/src/dialogs/symbology/vector_layer/types/Graduated.tsx:113-121 | the loop builds `['interpolate', ['linear'], ['get', value], stop1, output1, ...]` |
| Graduated.HandleOk | packages/base/src/dialogs/symbology/vector_layer/types/Graduated.tsx:101-149 | without parameters nothing happens; otherwise the choices are saved under the layer's key and the layer is written with the new style |
| Graduated.ColorRowsReadBack | packages/base/src/dialogs/symbology/vector_layer/types/Graduated.tsx:123-145 | reading back a fill or circle layer written with the colour method gives exactly the rows written |
| Graduated.LineRowsNotReadBack | packages/base/src/dialogs/symbology/vector_layer/types/Graduated.tsx:129-131 | a line layer's stops go to `stroke-color`, which the reader ignores, so reading back gives the old fill-colour rows |
| Graduated.ModeOf | packages/base/src/dialogs/symbology/vector_layer/types/Graduated.tsx:159-193 | exactly the five mode labels are recognised, each as its own mode |
| Graduated.ClassifiedRows | packages/base/src/dialogs/symbology/vector_layer/types/Graduated.tsx:151-203 | a property with no values throws whatever the mode; otherwise an unknown mode leaves the rows, and a known one gives the ramp's pairs for that mode's breaks over the property's values |
| StacTypes.OperatorSymbolToText | packages/base/src/stacBrowser/types/types.ts:159-173 | each operator symbol maps to its text |
| StacTypes.OperatorTableBijective | packages/base/src/stacBrowser/types/types.ts:135-173 | the table is a bijection between the ten operators and the ten texts |
| StacTypes.TextStringsDistinct | packages/base/src/stacBrowser/types/types.ts:147-157 | the ten texts are pairwise distinct strings |
| StacTypes.AddAllDistinct | packages/base/src/stacBrowser/types/types.ts:181-187 | a `Set` built by adding elements holds no repetition |
| StacTypes.AddAllFresh | packages/base/src/stacBrowser/types/types.ts:181-187 | adding only new elements keeps them in insertion order |
| StacTypes.LoadFilterState | packages/base/src/stacBrowser/hooks/useStacSearch.ts:101-117 | the loaded sets hold no repeated element, and a missing or non-object entry loads as the empty state |
| StacTypes.LoadAfterSave | packages/base/src/stacBrowser/hooks/useStacSearch.ts:100-153 | loading what was saved gives back the same filter state, for any state whose sets hold no repetition |
| StacTypes.FormatResult | packages/base/src/stacBrowser/hooks/useStacSearch.ts:324-326 | the item's title when it has one, its id otherwise |
| StacTypes.StacLayer | packages/base/src/stacBrowser/hooks/useStacSearch.ts:300-305 | a visible `StacLayer` holding the item as data and named as it is displayed |
| StacSearch.Matching | packages/base/src/stacBrowser/hooks/useStacSearch.ts:184-185 | exactly the catalogue entries with that code, in catalogue order |
| StacSearch.AddProducts | packages/base/src/stacBrowser/hooks/useStacSearch.ts:186-193 | the inner loop adds the levels and types of the matching entries to the two sets |
| StacSearch.CollectProductFilters | packages/base/src/stacBrowser/hooks/useStacSearch.ts:180-194 | the two sets are the processing levels and product types of the selected products, in the order the loops meet them |
| StacSearch.LevelsMember | packages/base/src/stacBrowser/hooks/useStacSearch.ts:183-194 | a processing level is gathered iff some catalogue entry of a selected code has it |
| StacSearch.CustomEntriesKeys | packages/base/src/stacBrowser/hooks/useStacSearch.ts:222-232 | a property has a custom entry iff some complete custom filter names it |
| StacSearch.CustomEntriesLast | packages/base/src/stacBrowser/hooks/useStacSearch.ts:222-232 | the entry of a property is `{operator: value}` of the last complete filter naming it, with the value as a number when it reads as one |
| StacSearch.FixedQuerySpec | packages/base/src/stacBrowser/hooks/useStacSearch.ts:200-221 | `latest` and `end_datetime` (start time or yesterday) always; `dataset`, `platform`, `processing:level` and `product:type` exactly when their sets are non-empty; `start_datetime` exactly when an end time is set |
| StacSearch.QuerySpec | packages/base/src/stacBrowser/hooks/useStacSearch.ts:200-233 | a property is queried iff it is a fixed criterion or a complete custom filter names it, and the last such filter overrides the fixed criterion |
| StacSearch.CeilDivSpec | packages/base/src/stacBrowser/hooks/useStacSearch.ts:270-271 | the page count is the least number of pages of `limit` results that covers `matched` |
| StacSearch.FindItem | packages/base/src/stacBrowser/hooks/useStacSearch.ts:293 | the first result with that id, None iff no result has it |
| StacSearch.StacSearchState.constructor | packages/base/src/stacBrowser/hooks/useStacSearch.ts:67-84 | no results, page 1 of 1, no times, the world bounding box and the empty filter state |
| StacSearch.StacSearchState.LoadFromDb | packages/base/src/stacBrowser/hooks/useStacSearch.ts:100-120 | the filter state becomes the loaded form of the saved entry |
| StacSearch.StacSearchState.SaveToDb | packages/base/src/stacBrowser/hooks/useStacSearch.ts:141-153 | the saved entry becomes the stored form of the filter state |
| StacSearch.StacSearchState.ApplyOutcome | packages/base/src/stacBrowser/hooks/useStacSearch.ts:261-280 | data sets the results, the rounded-up page count and the total; no data or an error resets them to `[]`, 1 and 0 |
| StacSearch.StacSearchState.FetchResults | packages/base/src/stacBrowser/hooks/useStacSearch.ts:179-281 | returns the body built from the current state; without a model nothing else changes, otherwise the outcome is applied and loading ends |
| StacSearch.StacSearchState.OnFiltersChanged | packages/base/src/stacBrowser/hooks/useStacSearch.ts:156-161 | on the first render nothing changes; otherwise the page goes back to 1, the body for page 1 is returned, the results, page count and total are those of the search, and loading ends |
| StacSearch.StacSearchState.HandlePaginationClick | packages/base/src/stacBrowser/hooks/useStacSearch.ts:314-317 | the page is set; with a model the body for that page is returned, the search outcome is applied and loading ends; without one nothing else changes |
| StacSearch.StacSearchState.HandleAddCustomFilter | packages/base/src/stacBrowser/hooks/useStacSearch.ts:329-341 | the saved entry is dropped and one filter with the operator's text is appended; the rest of the filter state stays |
| StacSearch.StacSearchState.OnResolutionChanged | packages/base/src/stacBrowser/hooks/useStacSearch.ts:164-177 | the signalled bounding box becomes the current one |
| StacSearch.StacSearchState.HandleResultClick | packages/base/src/stacBrowser/hooks/useStacSearch.ts:287-308 | an id not among the results adds nothing; otherwise the result is added, when there is a model, as a visible `StacLayer` under the fresh id |
| StacSearch.ClickedResultTwice | packages/base/src/stacBrowser/hooks/useStacSearch.ts:287-308 | clicking a result twice under two fresh ids adds exactly those two ids, both holding the same `StacLayer` named by `formatResult`; no other layer changes |
| StacSearch.ClickedResultTwiceOrder | packages/base/src/stacBrowser/hooks/useStacSearch.ts:287-308 | the two clicked ids go last in the render order, in click order |
| StacGenericFilter.Normalize | packages/base/src/stacBrowser/hooks/useStacGenericFilter.ts:50-53 | the title is the collection's title, or its id when it has none; the id is kept |
| StacGenericFilter.Lower | packages/base/src/stacBrowser/hooks/useStacGenericFilter.ts:55-56 | lower-casing keeps the length and maps every ASCII capital to its small letter |
| StacGenericFilter.LexLeTotal | packages/base/src/stacBrowser/hooks/useStacGenericFilter.ts:57 | any two sort keys are comparable |
| StacGenericFilter.InsertSorted | packages/base/src/stacBrowser/hooks/useStacGenericFilter.ts:54-58 | inserting into a sorted list keeps it sorted |
| StacGenericFilter.SortByTitleSpec | packages/base/src/stacBrowser/hooks/useStacGenericFilter.ts:54-58 | the sorted collections are in key order and are a permutation of the input |
| StacGenericFilter.InsertWithKey | packages/base/src/stacBrowser/hooks/useStacGenericFilter.ts:54-58 | an inserted collection comes before every collection of the same key |
| StacGenericFilter.SortByTitleStable | packages/base/src/stacBrowser/hooks/useStacGenericFilter.ts:54-58 | the sort is stable: the collections of each key are in their input order |
| StacGenericFilter.SortByTitleSorted | packages/base/src/stacBrowser/hooks/useStacGenericFilter.ts:54-58 | sorting an already sorted list changes nothing |
| StacGenericFilter.CollectionsSpec | packages/base/src/stacBrowser/hooks/useStacGenericFilter.ts:49-58 | one entry per catalogue collection, each normalised, in title order |
| StacGenericFilter.Includes | packages/base/src/stacBrowser/hooks/useStacGenericFilter.ts:193 | array membership for an array, a substring for a string, a throw for any other value |
| StacGenericFilter.KeepAssetSpec | packages/base/src/stacBrowser/hooks/useStacGenericFilter.ts:188-196 | an asset is kept iff it and its roles are truthy and the roles include `thumbnail` or `overview` |
| StacGenericFilter.FilteredAssets | packages/base/src/stacBrowser/hooks/useStacGenericFilter.ts:184-197 | a throw iff some asset's role test throws; otherwise exactly the kept assets under their own keys |
| StacGenericFilter.FilterAssets | packages/base/src/stacBrowser/hooks/useStacGenericFilter.ts:187-197 | the loop over the entries computes `FilteredAssets` |
| StacGenericFilter.SearchBody | packages/base/src/stacBrowser/hooks/useStacGenericFilter.ts:149-156 | the body has exactly bbox, collections `[selected]`, datetime `start/end` and limit 12 |
| StacGenericFilter.SubmittedFeatureSpec | packages/base/src/stacBrowser/hooks/useStacGenericFilter.ts:182-205 | only the first feature's assets change, and only to the kept subset of themselves |
| StacGenericFilter.SubmittedFeatureOf | packages/base/src/stacBrowser/hooks/useStacGenericFilter.ts:182-205 | the steps up to `addToMap`, including the asset loop, give `SubmittedFeature` |
| StacGenericFilter.LayerOf | packages/base/src/stacBrowser/hooks/useStacGenericFilter.ts:126-131 | a throw iff the data has no properties; otherwise a visible `StacLayer` holding the data and named `properties.title ?? id` |
| StacGenericFilter.SubmitEffectExamples | packages/base/src/stacBrowser/hooks/useStacGenericFilter.ts:182-205 | an illustration beside `SubmittedFeatureSpec` and `LayerOf`: a search without features adds nothing, and a single feature with only a thumbnail asset is added whole |
| StacGenericFilter.GenericFilterState.constructor | packages/base/src/stacBrowser/hooks/useStacGenericFilter.ts:26-32 | no collections, `sentinel-2-l2a` selected and the world bounding box |
| StacGenericFilter.GenericFilterState.LoadCollections | packages/base/src/stacBrowser/hooks/useStacGenericFilter.ts:49-61 | the collections become the normalised catalogue in title order |
| StacGenericFilter.GenericFilterState.OnBboxSignal | packages/base/src/stacBrowser/hooks/useStacGenericFilter.ts:96-105 | the world box when `useWorldBBox` is set, else the signalled box |
| StacGenericFilter.GenericFilterState.HandleSubmit | packages/base/src/stacBrowser/hooks/useStacGenericFilter.ts:136-206 | nothing without a model; otherwise the body sent is `SearchBody`, and the map gains the submitted feature's layer or nothing as `SubmitEffectOf` says |
| StacGenericFilter.GenericFilterState.AddToMap | packages/base/src/stacBrowser/hooks/useStacGenericFilter.ts:114-134 | nothing without a model or for falsy data; a throw without properties; otherwise the data's layer is added under the fresh id |
| StorySegmentForm.FirstMatchFrom | packages/base/src/formbuilder/objectform/layer/storySegmentLayerForm.ts:13 | the leftmost position where `layerOverride_` is followed by a digit, None iff there is none |
| StorySegmentForm.DigitRunEnd | packages/base/src/formbuilder/objectform/layer/storySegmentLayerForm.ts:13 | the greedy `\d+`: all digits up to a non-digit or the end |
| StorySegmentForm.ExtractLayerOverrideIndex | packages/base/src/formbuilder/objectform/layer/storySegmentLayerForm.ts:9-15 | None iff the id (or `''`) has no match |
| StorySegmentForm.ExtractLayerOverrideIndexSpec | packages/base/src/formbuilder/objectform/layer/storySegmentLayerForm.ts:9-15 | a found index is the decimal value of the digit run at a match |
| StorySegmentForm.DigitsValueOfNatToString | packages/base/src/formbuilder/objectform/layer/storySegmentLayerForm.ts:14 | parsing the digits `String(n)` writes gives `n` |
| StorySegmentForm.FieldIdRoundTrip | packages/base/src/formbuilder/objectform/layer/storySegmentLayerForm.ts:9-15 | the field id of override entry n, `root_layerOverride_<n>` followed by a non-digit or nothing, yields n |
| StorySegmentForm.FirstStorySegment | packages/base/src/formbuilder/objectform/layer/storySegmentLayerForm.ts:66-77 | None iff no selected key is a story segment; otherwise the first key that is one |
| StorySegmentForm.FindStorySegment | packages/base/src/formbuilder/objectform/layer/storySegmentLayerForm.ts:66-77 | the loop with `break` finds `FirstStorySegment` |
| StorySegmentForm.PatchedUiSchema | packages/base/src/formbuilder/objectform/layer/storySegmentLayerForm.ts:79-117 | `extent`, `content` and `layerOverride` are set and every other key is kept; `extent` is the reset field, and `content` and `layerOverride` are the entries `ContentUi` and `OverrideUi` build from the old ones |
| StorySegmentForm.PatchedUiSchemaEntries | packages/base/src/formbuilder/objectform/layer/storySegmentLayerForm.ts:88-117 | in the patched UI schema, `content` holds the markdown widget and every other old content entry; `layerOverride` holds the items UI, `orderable: false` and the array template, and every other old override entry |
| StorySegmentForm.ContentUi | packages/base/src/formbuilder/objectform/layer/storySegmentLayerForm.ts:88-96 | an object whose `markdown` is the ten-row textarea and which keeps every other spread entry |
| StorySegmentForm.OverrideUi | packages/base/src/formbuilder/objectform/layer/storySegmentLayerForm.ts:98-116 | an object with the items UI, `ui:options = {orderable: false}` and the array template, keeping every other spread entry |
| StorySegmentForm.WithoutOverrideStyle | packages/base/src/formbuilder/objectform/layer/storySegmentLayerForm.ts:119-125 | when the override items have properties, `color` and `symbologyState` are gone and everything else is kept; otherwise the schema is unchanged |
| StorySegmentForm.WithoutOverrideStyleIdempotent | packages/base/src/formbuilder/objectform/layer/storySegmentLayerForm.ts:119-125 | deleting the two properties again changes nothing |
| StorySegmentForm.FormSchemas.ProcessSchema | packages/base/src/formbuilder/objectform/layer/storySegmentLayerForm.ts:55-128 | without a selection nothing changes; otherwise the first selected story segment is found, and both schemas are patched as specified |
| SourcePropertiesField.SourceProperties | packages/base/src/formbuilder/objectform/components/SourcePropertiesField.tsx:35-38 | the entry's `sourceProperties` when the id names an index whose entry is truthy, undefined otherwise |
| SourcePropertiesField.LayerById | packages/base/src/formbuilder/objectform/components/SourcePropertiesField.tsx:41 | a layer is found iff the id is a string naming one |
| SourcePropertiesField.SourceById | packages/base/src/formbuilder/objectform/components/SourcePropertiesField.tsx:43 | a source is found iff the id is a string naming one |
| SourcePropertiesField.FieldPropsSpec | packages/base/src/formbuilder/objectform/components/SourcePropertiesField.tsx:34-63 | unknown sources get the `GeoJSONSource` form; a typed source with a registry gets the registry's truthy schema, and otherwise the schema is `{sourceSchema: undefined}`; no index means no source data |
| SourcePropertiesField.NoIndexReadsFirstEntry | packages/base/src/formbuilder/objectform/components/SourcePropertiesField.tsx:34-40 | without an id the target layer of entry 0 is read and there is no source data |
| SourcePropertiesField.FieldOfEntry | packages/base/src/formbuilder/objectform/components/SourcePropertiesField.tsx:34-40 | the field of override entry n edits entry n's source properties and reads its target layer |

## Left out

- The shared document (`doc.ts`) is not part of this model. `SharedDocument` is a sequential store with the operations the core calls. Yjs replication, transactions, change signals, awareness and undo/redo history are left out.
- Undo and redo themselves are left out: they belong to the document history. Only when the commands are enabled (`Commands.IsEnabled`) is modelled.
- `Private.createLayerBrowser` and `getUserInputForRename` are left out: they are DOM widgets. The rename commands take the DOM nodes' texts (`nodes`) and the user's answer (`answer`) as parameters.
- `JSON.parse`, Ajv schema validation and `JSON.parse(JSON.stringify(...))` deep copies are left out:
  - `fromString` takes the parsed content (None for unparsable text) and a validation predicate;
  - a deep copy of a JSON value is the value itself.
- Network requests (`fetchWithProxies`), the XSRF cookie, `UUID.uuid4` and `Date` are parameters:
  - a request's outcome or data;
  - the fresh layer id;
  - ISO time strings (`startOfYesterday`, `startOfToday`, `endOfToday`).
- The queryables fetch in the generic filter hook is left out: it only stores the fetched entries.
- `getApiUrlFromSettings` is left out: its result is never used.
- React rendering, state setters, refs and effect scheduling are modelled as sequential updates of the hook's state. Stale closures are not modelled.
- Render callbacks placed in UI schemas stand for themselves as marker strings: `StorySegmentReset`, `SourcePropertiesDebug` and the array template.
- The parts of `processSchema` inherited from `LayerPropertiesForm` (`super.processSchema`, `removeFormEntry('zoom', ...)`) are left out: `layerform.ts` is not part of this model.
- `SourcePropertiesDebug` is left out: it repeats the field's lookups only to print them.
- Band statistics (`getBandInfo`, GDAL) and the classification break functions are left out. `Graduated.ClassifiedRows` takes the break computation and the ramp's `getValueColorPairs` as function parameters.
- The product catalogue of the search hook is a parameter (`catalog`).
- JavaScript numbers are `real`s that are carried, never computed on. NaN is not modelled.
- `Number(value)` in custom filters is a parameter `asNumber`.
- A page count that is not finite is None.
- `StacGenericFilter.Lower`: `toLowerCase` is modelled for ASCII letters only.
- `StacGenericFilter.LexLe`: `localeCompare` is modelled as lexicographic order on character codes.
- `StorySegmentForm.ExtractLayerOverrideIndex`: `parseInt` of a very long digit run loses precision in JavaScript. The model keeps the exact value.
- Layers in the shared document, state-database entries and the saved filter state are taken to have their declared types. Only the shapes the code tests are modelled as JSON values (colour, parameters, assets, schemas).
- `StacGenericFilter.NameText`: a layer name whose `title ?? id` is not a string is modelled as the empty string.
- The in-place update of the working group through the aliased `mainGroup` in `_addLayerTreeItem` and `renameLayerGroup` is modelled on values. The top-level group is rebuilt along the path (`GisModel.Rebuild`), which gives the same stored tree.
- `SharedDocument.WriteSlot`: `doc.ts` is not part of this model, so what `updateLayerTreeItem` does with an undefined item or an index outside the tree is not known. The model takes either to write nothing. `removeLayerGroup` writes undefined when the first match is the last top-level entry, and the model then keeps that group (`GisModel.RemoveTopLevelLastKeepsTree`).
- `SharedDocument.SharedDoc.UpdateLayerTreeItem`: for the same reason, an undefined item or an index out of range leaves the tree unchanged, which is an assumption about the store.
- `Graduated.ClassifiedRows`: the `+numberOfShades` conversion of the text field is not modelled; the shade count is an integer parameter. `Array.from` of the property's value set is its values in insertion order.
- `StacTypes.StacItem` keeps only a result's id, `properties.title` and assets. The `parameters.data` of a layer added from a result (`StacTypes.ItemValue`) is that projection of the STAC item, not the whole item.
- `SharedDocument.SharedDoc.AddLayerTreeItem`: `doc.ts` is not part of this model, and `_addLayerTreeItem` passes the caller's `index ?? length` to it unchecked. The model takes a negative or too-large index to be clamped as `Array.prototype.splice` clamps it (`JsArray.SpliceStart`), which is an assumption about the store; `GisModel.TreeAfterAddSpec` and `GisModel.InsertLeaves` rely on it for insertion at the root.
- `Commands.PatchSchemaSpec`: JSON objects are maps, so key order is not modelled. That the patch places the `name` property first in `properties`, and so first in the form, is not captured; only that `name` is present, with the schema's own `name` property winning.
- Selections are sequences of key/entry pairs. Their keys are taken to be distinct, as object keys are.

## Findings

| source | as written | input that shows it | evidently intended | confidence | as-written member | corrected member |
|---|---|---|---|---|---|---|
| packages/schema/src/model.ts:445-448 | `removeLayerGroup` writes `updatedLayerTree[mainGroupIndex]`, the filtered copy's entry at the top-level index of the first match. For a top-level group that entry is the next sibling, which overwrites the group's slot. When the group is the last top-level entry the entry is undefined; the model takes that write as no change (see "Left out"), so the group stays. | the tree `[{name: "g", layers: []}, "a"]`, removing `"g"` | the tree becomes the filtered tree `["a"]` | not executed | GisModel.RemoveTopLevelDuplicatesSibling | GisModel.CorrectedTreeAfterRemove |
