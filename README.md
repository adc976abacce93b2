# knot.js binding engine and debugger bookkeeping, in Dafny

knot.js ties an access point of one target (a page element or a data
object) to an access point of another, so that a change on one side is piped
into the other. This project models two parts of it and proves what they
promise.

**The access-point manager** (`src/core/AccessPointManager.js`) is in
`access_point_manager.dfy` (module `KnotCore`), with the pipe chain in
`pipes.dfy` (module `Pipes`). It covers:

- the provider registry: a reverse scan with a dummy fallback, and idempotent registration;
- reading an access point through its pipes;
- `monitor` and `stopMonitoring`;
- the tie and untie of simple and composite knots.

A provider is a record of its two capability predicates (`doesSupport`,
`doesSupportMonitoring`) and of whether it has the optional `monitor` and
`stopMonitoring` methods. A registered provider reads and writes the
target's property named by the access point. The subscriptions that
providers hold are one multiset kept by the manager. A change callback is
data: a fresh id plus what its closure captured. A JavaScript exception is an
explicit `Failed(fault)` outcome, and the state is left as the source leaves
it at the point of the throw. The exceptions are:

- a pipe name that is not a function (the source logs it, then calls it anyway);
- a `provider` field that was never set;
- a provider without the optional `monitor` or `stopMonitoring`.

Three oddities of the source are reproduced as written:

- a composite tie stores the plain side's provider on the plain side's *target*, resolved from the name alone (line 106);
- a composite tie and untie pass the child *descriptor*, not its name, to `doesSupportMonitoring` (lines 124 and 155);
- `stopMonitoring` resolves the provider afresh instead of using the stored one (lines 86-89).

**The debugger** (`src/debugger/debugger.js`) is modelled in five modules:

- `node_dictionary.dfy` (module `Dictionary`): the parallel-array node dictionary, with JavaScript `indexOf` and `splice` semantics, including `splice(-1, 1)` removing the last element;
- `info_tree.dfy` (module `InfoTree`): the tree of node records, as heap objects whose flags the four passes (`searchInNode`, `searchByNode`, `collapseIrrelevantNodes`, `expandAll`) overwrite in place;
- `debugger.dfy` (module `Debugger`): `knotChanged`, `nodeRemoved`, and the listing of a newly built record in the dictionary;
- `descriptions.dfy` (module `Descriptions`): the label builders;
- `color_set.dfy` (module `ColorSet`): the `colorSet_` provider's name parsing.

`text.dfy` (module `Text`) gives the JavaScript string operations these use.

`getAPDescription` is modelled as written. A line break after `join(" & ")`
makes automatic semicolon insertion end the `return` there, so a composite's
label is `"("` followed by its children's labels joined by `" & "`. It is never
closed and never names the n-to-one pipe.

## Model

| member | source | states |
|---|---|---|
| KnotCore.AccessPointManager.GetProvider | src/core/AccessPointManager.js:47-55 | the reverse loop returns exactly the resolution function: the last registered provider that supports the query, else the dummy |
| KnotCore.ResolveIsLastSupporting | src/core/AccessPointManager.js:47-54 | resolution gives the dummy exactly when no registered provider supports the query; otherwise it gives the supporting provider with the highest index |
| KnotCore.LaterRegistrationWins | src/core/AccessPointManager.js:45-59 | a newly registered provider that supports a query overrides every earlier one for it |
| KnotCore.AccessPointManager.RegisterAPProvider | src/core/AccessPointManager.js:56-59 | the registry becomes the old one unchanged if the provider is in it, else the old one with the provider appended |
| KnotCore.RegistrationIdempotent | src/core/AccessPointManager.js:56-59 | registering twice is registering once; the old registry is a prefix of the new one, which holds the provider |
| KnotCore.SetValue | src/core/AccessPointManager.js:24-40 | the dummy's `setValue` writes nothing; a registered provider's write is read back by `getValue` |
| KnotCore.AccessPointManager.GetValueThroughPipe | src/core/AccessPointManager.js:61-73 | the loop yields the pipe chain applied to the raw value, or the first exception; with a provider set and every pipe defined it is the left-to-right fold of the pipes over the provider's value |
| Pipes.ApplyPipesOutcome | src/core/AccessPointManager.js:63-71 | a pipe chain succeeds exactly when every pipe name is a function, and a failure names the first one that is not |
| Pipes.ApplyPipesAppend | src/core/AccessPointManager.js:63-71 | running the chain `a + b` is running `a` and then `b` on its result |
| Pipes.ApplyPipesIsFold | src/core/AccessPointManager.js:61-73 | with every pipe defined, the front-to-back chain equals the reference fold that peels the last pipe |
| KnotCore.AccessPointManager.ProviderMonitor | src/core/AccessPointManager.js:36-37 | a registered provider's `monitor` adds exactly one registration, or throws when the provider lacks it; the dummy's does nothing |
| KnotCore.AccessPointManager.ProviderStopMonitoring | src/core/AccessPointManager.js:38-39 | a registered provider's `stopMonitoring` removes one registration of the given callback, or throws when the provider lacks it; the dummy's does nothing |
| KnotCore.AccessPointManager.Monitor | src/core/AccessPointManager.js:75-84 | a fresh forwarding callback is installed on the source descriptor and subscribed only when its provider supports monitoring; otherwise nothing changes |
| KnotCore.MonitorFresh | src/core/AccessPointManager.js:75-84 | a monitor step installs a callback exactly when monitoring is supported, and all it registers carries the fresh id |
| KnotCore.MonitorUndone | src/core/AccessPointManager.js:75-89 | stopping with the callback a monitor step installed removes at least what it registered, and only registrations of that callback |
| KnotCore.AccessPointManager.StopMonitoring | src/core/AccessPointManager.js:86-89 | the provider is resolved afresh and given the descriptor's callback field; the subscriptions lose exactly that provider's deregistration |
| KnotCore.AccessPointManager.TieKnot | src/core/AccessPointManager.js:91-142 | a composite left side takes precedence, then a composite right side, else both are simple; the new state is the matching tie's, every held callback stays older than the counter, and each branch leaves alone what it does not write (for a composite, the plain descriptor's own `provider` and callback and the composite target; for a simple tie, both targets' providers and the right target's properties) |
| KnotCore.AccessPointManager.TieSimple | src/core/AccessPointManager.js:131-141 | both descriptors hold their resolved providers, and the left target, the subscriptions, the counter and both callbacks are as the simple-tie effect computes |
| KnotCore.AccessPointManager.InitialiseAndMonitor | src/core/AccessPointManager.js:135-140 | the right side's piped value is written to the left side, then the left and right sides are monitored, stopping at the first exception |
| KnotCore.SimpleTieCopiesRight | src/core/AccessPointManager.js:132-137 | after a simple tie the left side holds the RIGHT side's piped value; a failing initial read leaves the left side and the subscriptions untouched |
| KnotCore.SimpleTieFresh | src/core/AccessPointManager.js:132-140 | every callback a simple tie registers has an id between the counter before and after; the left side gets a callback exactly when its provider supports monitoring |
| KnotCore.AccessPointManager.TieComposite | src/core/AccessPointManager.js:92-130 | each child holds its provider; the plain side's target holds the provider resolved from the plain side's name alone; the composite holds a fresh aggregate callback, subscribed up to the first child whose `monitor` throws and otherwise run once |
| KnotCore.AccessPointManager.PrepareComposite | src/core/AccessPointManager.js:103-108 | every child gets the provider resolved for it on the composite's target; the plain target gets its provider; the composite gets a fresh callback |
| KnotCore.AccessPointManager.AssignChildProviders | src/core/AccessPointManager.js:103-105 | after the loop, child `i` holds the provider resolved for child `i`, for every `i` |
| KnotCore.AccessPointManager.ReadChildren | src/core/AccessPointManager.js:109-112 | the loop collects the children's piped values in declared order, or the first exception |
| KnotCore.ChildValuesInOrder | src/core/AccessPointManager.js:109-112 | reading the children succeeds exactly when every child's read does, and then gives one value per child, each that child's piped value |
| KnotCore.AccessPointManager.Fire | src/core/AccessPointManager.js:108-121 | the aggregate closure writes the n-to-one pipe's value over all children to the plain side, or throws and writes nothing; the forwarding closure of lines 77-80 likewise writes the source's piped value |
| KnotCore.AggregateDeliveryAssigned | src/core/AccessPointManager.js:108-121 | once the tie has stored every provider, the aggregate closure delivers the n-to-one value to the provider stored on the plain target |
| KnotCore.AccessPointManager.FireAggregate | src/core/AccessPointManager.js:128-129 | the first run of the aggregate callback writes the n-to-one value through the stored provider, or fails and writes nothing |
| KnotCore.AccessPointManager.SubscribeChild | src/core/AccessPointManager.js:124-126 | a child is subscribed only when its provider supports monitoring its descriptor; a provider without `monitor` throws and adds nothing |
| KnotCore.AccessPointManager.SubscribeChildren | src/core/AccessPointManager.js:123-127 | the shared callback is registered on every monitoring child before the first one that throws, and the outcome names that child |
| KnotCore.AccessPointManager.SubscribeAndFire | src/core/AccessPointManager.js:123-129 | the children are subscribed, then the callback runs once only if no `monitor` threw |
| KnotCore.FirstMonitorFailureIsFirst | src/core/AccessPointManager.js:123-127 | no child before the failure index throws in `monitor`, and the child at the index does |
| KnotCore.ChildRegistrationsHold | src/core/AccessPointManager.js:123-127 | every registration a composite tie makes holds its one shared callback |
| KnotCore.AccessPointManager.UntieKnot | src/core/AccessPointManager.js:144-168 | dispatches as the tie does; the new state is the matching untie's, every held callback stays older than the counter, and a composite untie leaves the plain side's callback alone |
| KnotCore.AccessPointManager.UntieSimple | src/core/AccessPointManager.js:162-167 | each side is stopped and then its callback is deleted, left before right, stopping at the first exception |
| KnotCore.AccessPointManager.UntieComposite | src/core/AccessPointManager.js:145-161 | the shared callback is stopped on every monitoring child up to the first one that throws; the callback field is deleted only when none throws |
| KnotCore.AccessPointManager.StopChild | src/core/AccessPointManager.js:155-157 | a child with no provider throws; otherwise `stopMonitoring` is called only when the provider supports monitoring the descriptor |
| KnotCore.AccessPointManager.StopChildren | src/core/AccessPointManager.js:154-158 | the subscriptions lose the deregistrations of the children before the first one that throws, and the outcome names that child's fault |
| KnotCore.FirstStopFailureIsFirst | src/core/AccessPointManager.js:154-158 | no child before the index throws when untied, and the child at the index does |
| KnotCore.DeregistrationsMatch | src/core/AccessPointManager.js:154-157 | stopping the providers a tie assigned, with the tie's callback, removes exactly what the tie registered on all the children |
| KnotCore.SimpleRoundTrip | src/core/AccessPointManager.js:132-166 | with the registry unchanged, a simple tie followed by a completed untie restores the subscriptions and leaves both callback fields deleted |
| KnotCore.CompositeRoundTrip | src/core/AccessPointManager.js:103-160 | with the registry unchanged, a composite tie followed by a completed untie restores the subscriptions, wherever the tie stopped |
| Descriptions.SimpleDescription | src/debugger/debugger.js:117-123 | a simple access point's label is its description, followed by ` > ` and each pipe name unless the joined pipe names are empty |
| Descriptions.CompositeIgnoresNToOnePipe | src/debugger/debugger.js:112-116 | a composite's label starts with `(` and is the same for any n-to-one pipe, because the line naming it is never evaluated |
| Descriptions.ChildDescriptions | src/debugger/debugger.js:114 | one label per child, in order, each the child's own label |
| Descriptions.SimpleKnotOptions | src/debugger/debugger.js:117-127 | for two simple sides the option string is each side's description, followed by ` > ` and each of its pipe names when it has any, joined by ` : ` |
| Descriptions.ElementDescriptionForms | src/debugger/debugger.js:170-182 | an element with an id is labelled `tag[#id]`, one with neither id nor classes by its tag alone, and otherwise, for any class attribute (repeated, leading or trailing spaces included), by every non-blank space-separated token with a dot in front, in order, in brackets |
| Descriptions.BlankClassesGiveEmptyBrackets | src/debugger/debugger.js:175-180 | a class attribute of spaces only still gives brackets, with nothing inside |
| Descriptions.DottedClassesKeepNonBlank | src/debugger/debugger.js:176-178 | non-blank tokens are all kept, in order, each with a dot in front |
| Descriptions.DottedClasses | src/debugger/debugger.js:176-178 | the filtered and mapped tokens are exactly the non-blank tokens, in order, each with a dot in front |
| Descriptions.NonBlank | src/debugger/debugger.js:177 | the filter keeps only tokens of the list, none of them blank |
| Text.StartsWithIsPrefix | src/debugger/debugger.js:320-322 | the `substr`-based `startsWith` holds exactly when the second string is a prefix of the first |
| Text.LowerContainsIff | src/debugger/debugger.js:185-188 | searching character by character agrees with `toLowerCase().indexOf(k) >= 0` |
| Text.IndexOfFirst | src/debugger/debugger.js:185-188 | `indexOf` gives the first occurrence, and -1 exactly when there is none |
| Text.TrimEmptyIff | src/debugger/debugger.js:177 | a class token is dropped by the filter exactly when it is all white space |
| Text.TrimKeepsMiddle | src/debugger/debugger.js:334-336 | trimming keeps a contiguous run of the string and removes only white space from its two ends |
| Text.SplitJoin | src/debugger/debugger.js:334-336 | splitting pieces joined by a separator none of them holds gives back the pieces |
| Text.JoinSplit | src/debugger/debugger.js:176-179 | joining the pieces of a split with its separator gives back the string |
| ColorSet.SetValue | src/debugger/debugger.js:332-337 | setting throws exactly when the name does not parse; otherwise the named property takes the value and every other property is kept |
| ColorSet.ParseFailsIff | src/debugger/debugger.js:333-336 | the parse throws exactly when the part after the prefix holds fewer than two commas |
| ColorSet.ParseJoined | src/debugger/debugger.js:324-336 | a name built from the prefix and comma-free fields is claimed by the provider and parses back to the first three fields, trimmed |
| ColorSet.ParseRoundTrip | src/debugger/debugger.js:332-336 | trimmed comma-free name, from-colour and to-colour parse back exactly |
| InfoTree.OptionInfo.constructor | src/debugger/debugger.js:151-156 | an option record is labelled by its knot's options string, not highlighted, with no latest value and an empty history |
| InfoTree.NewRecord | src/debugger/debugger.js:130-165 | a new record is expanded, not highlighted and labelled by its element's description; it is the parent of each of its children and roots a valid tree |
| InfoTree.Adopt | src/debugger/debugger.js:137-140 | every child record gets the new record as its parent |
| InfoTree.ElementsAreRecords | src/debugger/debugger.js:195-210 | the elements a record holds are exactly the elements of the records in its subtree |
| InfoTree.MatchesMeaning | src/debugger/debugger.js:185-188 | an option matches exactly when the keyword occurs in its lowered description, so every option matches the empty keyword; a record matches when the keyword is non-empty and an option with its description would |
| InfoTree.SearchInNode | src/debugger/debugger.js:184-194 | every record of the subtree is highlighted exactly when the keyword is non-empty and occurs in its lowered description; every option exactly when the keyword occurs in its lowered description |
| InfoTree.HighlightOwn | src/debugger/debugger.js:185-190 | the record's own flag and its own options' flags follow the keyword test |
| InfoTree.HighlightOptions | src/debugger/debugger.js:186-190 | after the loop each option's flag is the keyword test on its description |
| InfoTree.SearchChildren | src/debugger/debugger.js:191-193 | the recursion over the children sets every record and option below the root by the keyword test |
| InfoTree.SearchByNode | src/debugger/debugger.js:195-210 | returns whether a record for the target element is in the subtree; clears every option; a record with the target below it keeps its flag, and every other record is highlighted exactly when it is the target's |
| InfoTree.SearchByChildren | src/debugger/debugger.js:197-200 | the loop over all children (no short-circuit) finds whether the target lies below the root, with every record below updated |
| InfoTree.ClearOptions | src/debugger/debugger.js:202-206 | every option of the list ends up not highlighted |
| InfoTree.CollapseIrrelevantNodes | src/debugger/debugger.js:212-231 | every record of the subtree is expanded exactly when it, one of its options, or something below it is highlighted; the result is the root's new flag |
| InfoTree.CollapseChildren | src/debugger/debugger.js:213-217 | every child is visited, and `collapse` stays true exactly when nothing below the root is highlighted |
| InfoTree.RootRelevant | src/debugger/debugger.js:219-229 | a record is relevant exactly when it is highlighted, one of its own options is, or something below it is |
| InfoTree.QuietChildren | src/debugger/debugger.js:213-217 | no child is relevant exactly when nothing below the root is highlighted |
| InfoTree.AnyHighlighted | src/debugger/debugger.js:220-228 | the loop with `break` reports whether some option is highlighted |
| InfoTree.ExpandAll | src/debugger/debugger.js:232-237 | every record of the subtree ends up expanded, and no other field changes |
| InfoTree.ExpandChildren | src/debugger/debugger.js:233-235 | every record below the root ends up expanded |
| Dictionary.FirstIndex | src/debugger/debugger.js:79 | `indexOf` is -1 exactly when the element is absent; otherwise it is an index holding it with no earlier one |
| Dictionary.Lookup | src/debugger/debugger.js:85-87 | on aligned arrays a record is found exactly for listed elements, and it is that element's record |
| Dictionary.LookupAfterAdd | src/debugger/debugger.js:75-77 | after `add`, listed elements find their old records, and a newly listed element finds the added record |
| Dictionary.LookupAfterRemove | src/debugger/debugger.js:78-87 | after `remove` of a listed element, every other element finds the same record as before |
| Dictionary.RemovedIsGone | src/debugger/debugger.js:78-87 | after `remove` of an element listed once, the arrays stay aligned and the element is no longer found |
| Dictionary.SplicePaired | src/debugger/debugger.js:80-83 | splicing the same index out of both arrays keeps them aligned |
| Dictionary.SpliceAt | src/debugger/debugger.js:81-82 | `splice(i, 1)` shortens by one and shifts everything after `i` down by one |
| Dictionary.SpliceFirst | src/debugger/debugger.js:415 | splicing out the first occurrence takes exactly one copy out and keeps the rest in order |
| Dictionary.NodeDictionary.constructor | src/debugger/debugger.js:72-74 | the dictionary starts with two empty, aligned arrays |
| Dictionary.NodeDictionary.Add | src/debugger/debugger.js:75-77 | the element and its record are appended at the same index, and alignment is kept |
| Dictionary.NodeDictionary.Remove | src/debugger/debugger.js:78-84 | both arrays lose the entry at the element's first index; nothing changes when it is absent; alignment is kept |
| Dictionary.NodeDictionary.Get | src/debugger/debugger.js:85-87 | on aligned arrays a record is found exactly for listed elements, and it is that element's record |
| Debugger.FirstOption | src/debugger/debugger.js:373-374 | the index of the first option made from the knot, or -1 when no option is |
| Debugger.PrependKeepsOrder | src/debugger/debugger.js:377-384 | logging a change at the front under the next id keeps the log's ids strictly decreasing and below the counter |
| Debugger.DebuggerModel.KnotChanged | src/debugger/debugger.js:369-388 | covers four cases. An unknown element changes nothing. A record without options throws. When no option matches, nothing changes. Otherwise the first matching option keeps every recorded value and records the new one last, under the old counter value; the counter goes up by one, exactly one entry is logged at the front, and the log stays ordered |
| Debugger.DebuggerModel.AddRecord | src/debugger/debugger.js:130-166 | the record is built from its children and appended to the dictionary under its element; every element listed before finds its record as before, and an element not listed before finds the new record |
| Debugger.DebuggerModel.LogChange | src/debugger/debugger.js:375-385 | the latest value moves to the history, the new value takes the next id, and one entry is logged at the front |
| Debugger.DebuggerModel.NodeRemoved | src/debugger/debugger.js:410-419 | covers four effects. An unknown element changes nothing. Otherwise the record leaves its parent's children (one copy) and loses its parent, and no other field of any record changes. Its entry leaves the dictionary. Every other listed element finds its record as before, and an element listed once is no longer found |
| Debugger.DebuggerModel.Detach | src/debugger/debugger.js:414-417 | the parent's children lose the record's first occurrence and the record's parent becomes null |

## Left out

- DOM, jQuery and window plumbing is not modelled: `locateElement`, `showJson`, `getClosestVisibleElement`, the `Knot.ready` handlers, timers, `alert`, and the colour animation of the `colorSet_` provider. These are browser effects with no state the model keeps.
- The DOM walk of `generateDOMTree` is not modelled. It reads live `node.children`, returns `null` for an element with no knot and no kept descendant, and copies `dataContext` and `noKnotSetting`. `Debugger.DebuggerModel.AddRecord` models the end of it for one kept element: the record is built from its already built children (`InfoTree.NewRecord`) and added to the dictionary.
- `nodeAdded` is not modelled: it walks `parentNode` and `childNodes` of the live page.
- `setIsTiedUp`, `knotTied`, `knotUntied` and `log` of the opener interface are outside the modelled core; the first two hooks are commented out in the source.
- Logging through `Log.error` is a no-op here: it is foreign I/O and changes no state the model keeps.
- The option parser is not modelled. Access-point descriptors are built directly by the `KnotCore.AccessPoint` constructors, in the shape the parser's tests show.
- Concrete providers and pipe functions are not modelled. A provider is its capability predicates plus which optional methods it has, and a pipe is an opaque `Value -> Value` function in a symbol table. A pipe's `this` binding is not modelled.
- Feedback loops between callbacks are not modelled. A callback that fires is run once through `KnotCore.AccessPointManager.Fire`, and a provider's re-firing of other callbacks is not.
- A missing `pipes` list on a descriptor is the empty sequence.
- `toLowerCase` lowers only the Latin capitals `A`-`Z`; other Unicode case mappings are not modelled.
- `trim` removes ASCII white space, the no-break space and the byte-order mark, not every Unicode space separator.
- The debugger's id counter is an unbounded natural number; JavaScript numbers stay exact only up to 2^53.
- Knot options are compared by value here (`KnotInfo` holds the two descriptor references). The source compares the option objects by identity, so two distinct option objects over the same two descriptors would not match there.
- Debugger.DebuggerModel.NodeRemoved: the ghost sets that describe each record's subtree are fixed when the record is built. After a removal, the ancestors' tree invariant is not re-established, so the four passes are not proved for a tree that has lost a record.
- InfoTree.CollapseIrrelevantNodes: takes the highlighted records, the highlighted options and the relevant records as ghost parameters. The pass only reads the highlight flags, and these sets name them.
- KnotCore.AccessPointManager.TieKnot: requires the two sides to be distinct descriptor objects. The source does not check this, but the option parser always builds two separate descriptors, so no knot the source builds is excluded. The same holds for `UntieKnot`, `TieSimple` and `UntieSimple`.
- Debugger.DebuggerModel.KnotChanged: takes no `rightTarget` parameter, because the source never reads it.
