# Verified model of the configuration library

This Dafny project models the parts of the Go configuration library that carry its hardest logic
and proves properties of them for all inputs, all runs and all interleavings. `dafny verify
dfyconfig.toml` checks everything.

- **YAML printer and parser** (`Text`, `YamlScalars`, `ConfParser`, `Export`, `GoMaps`,
  `YamlRoundTrip`, `YamlKeys`, `YamlDocuments`). The parser keeps a stack of aliased mutable maps; the model keeps them
  as heap objects (`GoMaps.Dict`) and ties them to a tree with one open path, a zipper. The printer
  appends to a writer. The round trip is an equivalence: the text reads back as the tree exactly when
  every key is plain and every leaf is safe. Independently of the printer, `YamlDocuments` says what any
  document that is laid out in blocks parses to.
- **Template expander** (`Template`, `TemplateDepth`, `Config`). The loop that splices into the
  string it scans refines a left-to-right sweep. The depth limit is invisible for acyclic references
  of rank at most 14, or 15 when the values without references are inert; along a chain of references
  both bounds are exact.
- **Dotted keys** (`DottedKeys`, `Nesting`, `NestedMaps`, `Flattening`, `MergeDeep`). Three in-place
  nesters and two flatteners, proved inverse to each other exactly on coherent keys: normalised, and
  none a prefix of another. Deep merge is built from them, including the copying of one map into
  another. `SharedMaps` says when indexing writes into a map that belongs to the caller.
- **Export and reload** (`Places`, `Reload`). Nest, print, parse, flatten: a configuration comes back from
  its own YAML export exactly under a condition on its keys and values.
- **Engine, events, observers** (`StateEngine`, `Observers`, `ObserverSend`, `ObserverClose`,
  `ObserverManager`, `ObserverRuns`, `Fanout`). Whole-run replay, and bounded queues under every interleaving of the calls' own accesses
  to shared state; when Close's wait can end, exactly what holds afterwards, and when a send panics.
- **Merging and loading** (`Merge`, `Loader`), **snapshots** (`Snapshots`, `Checksum`).
- **Protocols and arithmetic**: a context-aware lock (`ContextLock`), a debouncer (`Debounce`), decimal
  printing (`Decimal`).
- **Concrete inputs** (`Examples`), mostly where the code does less than its comments say.

Reading conventions. A Go map is a Dafny `map`, and a range over it takes its keys in any order, so
every result that mentions no order holds for all of them. Go's `any` is `Types.Any`; floats are bit
patterns. A call that may panic returns `Types.Outcome`. Hooks and sources are given by their
outcomes, the clock by a parameter. Methods follow the source's loops; each is proved to compute a
function, and the lemmas are about that function.

Where the code departs from its own comments, the model follows the code: the parser panics on a
value that is a lone quote character (`ConfParser.ReadLinesPanics`); escaping is never undone
(`YamlRoundTrip.QuotedReads`); keywords are quoted in lower case only but read in any case
(`YamlRoundTrip.UnquotedReads`); keys are never quoted (`YamlKeys.RoundTrip`); `Prune` reports old
snapshots that it keeps (`Snapshots.Manager.Prune`); negative values above -1 lose their sign when
printed (`Decimal.PrintedWithin`); concurrent loading breaks ties by arrival
(`Loader.ArrivalOrderIrrelevant`); a Subscribe call that overlaps Close can leave a processor behind
(`ObserverClose.CloseWaitsForAll`, `ObserverClose.WaitCanEnd`); a notification that overlaps an
unsubscription can panic (`ObserverSend.CanPanic`); and one that meets it halfway misses a subscription
that is still active (`ObserverClose.DeletedMisses`).

## Model

| member | source | states |
|---|---|---|
| YamlKeys.RoundTrip | export/export.go:109-219 | The text printed for a tree of any depth and width parses back to exactly that tree if and only if every key is plain and every leaf is safe |
| YamlKeys.PlainKeysNeeded | confparser/parser.go:113-149 | A tree that comes back has only plain keys: the longest other key would have to be read from its own line |
| YamlKeys.ParsedKeysIn | confparser/parser.go:104-166 | Whatever text is parsed, each key of the result, at any depth, is the key of some line |
| YamlRoundTrip.PlainRoundTrip | export/export.go:109-219 | With plain keys, a tree comes back if and only if every leaf is safe |
| Reload.ReloadExact | export/export.go:98-106 | A configuration of scalars comes back from its own YAML export, parsed and flattened, if and only if no key's path extends another's, no key starts with a dot, every part of every key is plain and every value is safe; then no other result is possible |
| Reload.NeededToReload | source/source.go:103-121 | Whenever one way of flattening the file's tree gives the configuration back, that condition holds |
| Reload.EnoughToReload | source/source.go:103-121 | Under the condition the file parses to exactly the exported tree, and every way of flattening it gives the configuration back |
| Reload.CoherentSurvives | export/export.go:528-550 | Coherent keys with plain parts and safe values meet the condition |
| Reload.LeafRead | confparser/parser.go:169-203 | A value of the parsed tree was read from the printed value at the same path |
| Places.LeafOrigin | export/export.go:528-550 | Every value of the exporter's nested map is the value of an entry, at the place where its own insertion wrote it |
| Places.PlaceKey | confparser/parser.go:384-398 | The key that a place is flattened to is shorter than the exported key, unless nothing was in the way and the key does not start with a dot |
| Places.ApartPlaces | export/export.go:528-550 | If no key's path extends another's, every value lies at its own key's path and nothing else does |
| YamlRoundTrip.ParsedPrinted | confparser/parser.go:104-166 | Parsing a printed tree rebuilds every map, empty ones included, and changes nothing but the leaves that their own text does not bring back |
| YamlRoundTrip.BlockReads | confparser/parser.go:113-163 | Reading a printed block at any depth adds exactly its entries to the map the parser is in, however many levels it pops lazily afterwards |
| YamlRoundTrip.EntrySurvives | confparser/parser.go:169-203 | A tree without broken lines survives leafwise reading if and only if each leaf is safe |
| YamlRoundTrip.ScalarReads | export/export.go:109-162 | A printed scalar goes through comment stripping and classification and comes back equal exactly when it is safe; every int, bool and nil is |
| YamlRoundTrip.QuotedReads | export/export.go:589-609 | A quoted string reads back as itself if and only if it holds no character that escaping rewrites: the parser never unescapes |
| YamlRoundTrip.UnquotedReads | export/export.go:555-586 | A string printed without quotes reads back as itself exactly when it has no space at an end, is not enclosed in one kind of quote, and is no keyword in any case |
| YamlRoundTrip.IntReads | confparser/parser.go:191-194 | Every int64 survives printing and classification |
| YamlRoundTrip.LineParts | confparser/parser.go:113-149 | A printed line is neither skipped nor cut at the wrong colon: it yields its key and its trimmed, comment-stripped value |
| YamlRoundTrip.ParsedNoBreaks | confparser/parser.go:104-166 | Whatever text is parsed, no string anywhere in the result holds a line break |
| YamlRoundTrip.BrokenTree | export/export.go:555-586 | A tree one of whose printed scalars breaks its line is not safe and holds a string with a line break, so it cannot come back |
| YamlScalars.EscapingProtects | export/export.go:589-609 | For every string, the double-quoted escaped form passes the comment stripper unchanged |
| YamlScalars.InsideEscaped | confparser/parser.go:353-374 | At every position of an escaped string the stripper is still inside the quotes |
| YamlScalars.EscapeFixed | export/export.go:589-609 | Escaping never shortens a string and leaves it alone exactly when it holds no escapable character |
| YamlScalars.UnescapeEscape | export/export.go:589-609 | Undoing the escapes gives the string back, so escaping loses nothing |
| YamlScalars.EscapeWords | export/export.go:589-609 | The five characters that are escaped and the two characters each becomes |
| YamlScalars.LowerLetters | confparser/parser.go:178-186 | Comparison without regard to case turns each ASCII capital into its small letter |
| Text.AtoiExact | confparser/parser.go:191-194 | An integer is an optional sign and decimal digits within 64 bits, and nothing else |
| YamlScalars.EscapeString | export/export.go:589-609 | The buffer loop computes the escaped form |
| YamlScalars.CommentStart | confparser/parser.go:353-374 | The comment starts at the first hash that is outside quotes and escapes, and nowhere before |
| YamlScalars.StripInlineYAMLComment | confparser/parser.go:353-374 | The flag-driven scan returns the text trimmed at that hash, or trimmed whole |
| YamlScalars.OutsideByParity | confparser/parser.go:353-374 | Without backslashes and single quotes, the automaton is outside exactly after an even number of double quotes |
| YamlScalars.ParseValuePanics | confparser/parser.go:169-203 | Classification panics exactly on a lone quote character |
| YamlScalars.NeedsQuoting | export/export.go:555-586 | The scan asks for quotes exactly for the empty string, the listed special characters, the eight lower-case words, numbers, and blanks or tabs at an end |
| YamlDocuments.DocumentReads | confparser/parser.go:104-166 | Any document laid out in blocks, whatever the depth of each indentation, with blank lines, comments, lines without a colon, quoted keys, quoted or bare values and repeated keys, parses to exactly its entries: the last value of a key counts and a block replaces what its key held |
| YamlDocuments.WordRead | confparser/parser.go:169-203 | On the line `key: word` the words true, yes, on, false, no, off, null (in any case) and ~ give that boolean or nil; any other word gives an integer, else a float, else itself as a string |
| YamlDocuments.QuotedRead | confparser/parser.go:169-176 | Between single or double quotes the same words, numbers, hashes and blanks are a string, character by character |
| YamlDocuments.CommentsStripped | confparser/parser.go:353-374 | Bare text, text in either kind of quotes and escaped characters, in any mixture, pass the comment stripper; a hash after them is cut off with everything behind it |
| YamlDocuments.ItemsRead | confparser/parser.go:113-163 | Reading the lines of a block, from any open path, gives the block exactly its entries and leaves the path as it was once popped |
| YamlDocuments.HeadReads | confparser/parser.go:120-149 | A line with any indentation of blanks and tabs and any quote characters round its key is read as that key, at that indentation |
| ConfParser.Parse | confparser/parser.go:104-166 | The two-stack parser returns a fresh map that stands for the parsed tree: every write lands in the returned tree, through chains of distinct aliased maps; it panics exactly when the line-by-line reading does. What that reading gives is stated by YamlDocuments.DocumentReads |
| ConfParser.PopStacks | confparser/parser.go:130-137 | Popping never underflows, keeps both stacks equally long and the maps a chain bound one inside the other, and leaves the path popped to the line's indent |
| ConfParser.ReadLinesPanics | confparser/parser.go:104-166 | Parsing panics exactly when some line, anywhere in the text, has a lone quote as its value |
| ConfParser.ReadLinesIndented | confparser/parser.go:107-163 | On any input at all the recorded indents are strictly increasing |
| ConfParser.PopToIndented | confparser/parser.go:130-137 | Popping keeps them increasing and leaves only indents below the line's |
| GoMaps.OpenDenotes | confparser/parser.go:107-163 | A chain of maps, each bound inside the one before, stands for the tree got by closing the path |
| GoMaps.OpenUp | confparser/parser.go:130-137 | Leaving a map keeps the chain and finishes the map as its parent's entry |
| GoMaps.BindItem | confparser/parser.go:160-162 | Writing a value in the current map is visible in the tree at the end of the path and nowhere else |
| GoMaps.BindChild | confparser/parser.go:152-158 | Binding a new map extends the path by an empty child and changes no other map |
| GoMaps.DenotesUnique | confparser/parser.go:104-166 | A heap map stands for at most one tree |
| Export.WriteYAMLMap | export/export.go:166-219 | The recursive printer appends exactly the lines of the tree, keys in increasing order, two spaces a level |
| Export.WriteEntry | export/export.go:177-216 | One key is printed as an inline scalar, or as a header with the nested block below |
| Export.SortedKeys | export/export.go:167-172 | Whatever order the keys come in, sorting gives the one increasing list of them |
| Export.ListsUnique | export/export.go:167-172 | A set of keys has only one increasing list, so the printed text does not depend on map order |
| Export.LessFirstDifference | export/export.go:167-172 | That order is decided at the first place where two keys differ, and a key comes after its own beginnings |
| Examples.SmallTree | export/export.go:166-219 | A small nested tree and the very text it is printed as |
| Template.ProcessTemplateDepth | config.go:905-960 | The splicing loop computes the left-to-right expansion; `result` is always finished output followed by an untouched suffix of the input, and the measure (levels left, text left) decreases even for empty or longer replacements |
| Template.Replacement | config.go:912-952 | A placeholder is replaced by the expanded value, else by a non-empty default, else kept |
| Template.FindClosing | config.go:916-928 | The closing brace found is the first one after the opening |
| Template.FindColon | config.go:962-970 | The colon found is the first one |
| TemplateDepth.AcyclicExpandsFully | config.go:903-960 | If references can be ranked and the start string resolves keys of rank at most 14, the bounded expander equals unbounded expansion |
| TemplateDepth.LimitInvisible | config.go:903-960 | The same from any depth: with n levels of references left and depth + n below the limit, the limit does not show |
| TemplateDepth.UnboundedUnique | config.go:903-960 | Unbounded expansion does not depend on the ranking that shows it ends |
| TemplateDepth.LimitInvisibleInert | config.go:903-960 | If values without references are inert, depth + n may reach the limit itself |
| TemplateDepth.InertEndsExpandFully | config.go:903-960 | Then ranks up to 15 from the start string are expanded completely |
| TemplateDepth.ChainStops | config.go:903-960 | Along a chain of references each costs one level: the end is expanded at its own depth, or exactly the reference that meets the limit is left |
| TemplateDepth.ChainToDefault | config.go:903-960 | A chain that ends in a placeholder with a default reaches it exactly when depth plus length stays below 16, so the bound of 14 is tight |
| TemplateDepth.ChainToText | config.go:903-960 | A chain that ends in plain text may be one longer, so the bound of 15 is tight |
| TemplateDepth.SelfReference | config.go:903-960 | A key that refers to itself expands to its own placeholder |
| TemplateDepth.PlaceholderExpands | config.go:905-960 | In any surrounding text a placeholder becomes the expansion of the value under the key before its first colon, else its default, unexpanded, else stays; text without a dollar sign is copied |
| Config.Config.ProcessTemplates | config.go:869-897 | On an open engine each string that expands to another text against the old state becomes that text, with its own string form, type string and the old source and priority, every other value stays; exactly one version is published when some string changed and none otherwise; a closed engine or failing hook stores nothing |
| Config.SubstituteAll | config.go:871-888 | Whatever the iteration order, each string becomes its expansion against the old state only |
| Config.SubstitutionEvents | config.go:890-894 | A substitution is announced as one update of each changed key, and nothing else |
| DottedKeys.SplitKey | merge/merge.go:202-218 | The hand-written splitter yields the non-empty parts between dots |
| DottedKeys.PartsJoined | merge/merge.go:202-218 | The parts of two keys joined by a dot are those of the first and then those of the second, so empty parts vanish wherever they are |
| DottedKeys.NormalisedParts | core/state.go:181-197 | On normalised keys both ways of splitting agree and joining goes back |
| DottedKeys.AtPut | core/state.go:154-178 | Inserting sets its own path, removes what lay before or behind it on the same line, and touches no other path |
| DottedKeys.BuildPutIsPut | export/export.go:528-550 | The exporter's insertion equals the other two unless a value lies strictly before the path |
| Examples.BlockedKey | export/export.go:528-550 | For the keys `a` and `a.b` the exporter steps over the value in the way and writes `b` beside `a` |
| DottedKeys.PutKeepsShape | core/state.go:154-178 | Inserting keeps all keys non-empty and dot-free and creates no empty map |
| DottedKeys.LeavesPrefixFree | confparser/parser.go:377-398 | In any tree no value's path extends another's |
| DottedKeys.LeavesDetermine | confparser/parser.go:377-398 | Trees without empty sub-maps are equal once they agree on all value paths |
| Nesting.NestThenFlatten | merge/merge.go:116-199 | Nesting and then flattening loses nothing on coherent keys, whatever the order of the entries |
| Nesting.NestFlattenExact | merge/merge.go:116-199 | It gives back the flat map if and only if the keys are coherent |
| Nesting.NestersAgree | export/export.go:528-550 | `buildNested` builds the same tree as the other two nesters on coherent keys, whatever the values are |
| Nesting.LeafBehindKey | core/state.go:147-178 | Every value of the nested map lies at or behind the path of some key |
| Nesting.FlattenThenNest | confparser/parser.go:377-398 | A tree with non-empty dot-free keys and no empty sub-map flattens to coherent keys and is rebuilt exactly by all nesters, in any order |
| Nesting.FlatKeysCoherent | confparser/parser.go:377-398 | If every value lies behind non-empty, dot-free keys, the keys of the flattening are normalised and prefix-free |
| Nesting.NoMapAtKey | merge/merge.go:143-156 | On coherent keys no value is ever stored where a map is, so the branch that merges maps is not taken |
| NestedMaps.Nested.Insert | merge/merge.go:138-174 | The pointer walk over shared maps changes the tree by exactly one insertion and keeps maps unshared; a value that holds a map is copied into a map that is already there |
| NestedMaps.CopyInto | merge/merge.go:148-152 | The copy loop, in any order, adds exactly the new map's entries to the existing one |
| DottedKeys.AtMerge | merge/merge.go:148-152 | Copied entries lie one part behind the path and replace what was there or behind; every other path is untouched |
| NestedMaps.Nested.BuildInsert | export/export.go:531-547 | The same for the exporter's walk, which does not step over a value in the way |
| NestedMaps.BuildIndexed | core/state.go:147-178 | The whole index stands for the nesting of all entries, each key once |
| SharedMaps.CallersMapsUntouched | core/state.go:154-178 | Whatever the order of the keys, indexing never writes into a map that a value holds, if and only if no key that holds a map stands in front of another key |
| SharedMaps.BoundOrigin | core/state.go:154-178 | What is bound at a path is the value of an entry whose path it is |
| NestedMaps.BuildNested | export/export.go:528-550 | The exporter's nested map stands for its nesting of all entries |
| Flattening.Flatten | confparser/parser.go:377-398 | On any tree, each key of the result is one that a path ends up under, with the value of such a path, and none is missing; on well-keyed trees that is the flat form |
| Flattening.FlattenedIsFlat | confparser/parser.go:377-398 | If every value lies behind non-empty, dot-free keys, the order of iteration does not show |
| Flattening.FlattenRecursive | confparser/parser.go:384-398 | On any tree, keys that some path ends up under get the value of such a path, all others keep theirs |
| Flattening.FlattenValues | merge/merge.go:177-199 | Reading any nested heap map back gives exactly the keys that its paths end up under, each with the value of such a path |
| Flattening.ValueFromPath | merge/merge.go:188-195 | Each value read back was found at a path that ends up under its key: a configuration value as it is, any other in its printed form, without a type, from memory, with priority 0 |
| Flattening.KeyIsJoined | confparser/parser.go:384-390 | A path ends up under its parts joined by dots, except that empty parts in front are lost |
| MergeDeep.MergeDeep | merge/merge.go:116-135 | Deep merge flattens what inserting the entries of all sources nests; for two or more sources it equals the last-wins merge if and only if the keys are coherent |
| MergeDeep.DeepExact | merge/merge.go:116-199 | The same for any order of insertion: with coherent keys nothing is merged or lost, with others some key is missing from the result, maps that are merged included |
| MergeDeep.MergeAllWitnessed | merge/merge.go:143-156 | Empty or dotted parts in the nested map come only from merged maps, whose own key is among the sources |
| MergeDeep.MapReturns | merge/merge.go:177-199 | A value that holds a map can come back only from the place its key stands for |
| MergeDeep.MergedTogether | merge/merge.go:143-154 | `a.b` in one source and a map under `a` in the next end up in one map |
| MergeDeep.IllKeyedValueSurvives | merge/merge.go:143-154 | A map that holds a configuration value under an empty key makes the merge equal the last-wins merge on keys that are not coherent |
| MergeDeep.InsertAll | merge/merge.go:127-131 | Inserting one source in any order goes through each of its entries and merges or stores it |
| Merge.ByPriorityIsLeftmostMax | merge/merge.go:52-71 | For every key of any source the merge holds its leftmost maximum, and it holds no other key |
| Merge.StrongerAssociative | merge/merge.go:52-71 | Merging two maps by priority is associative |
| Merge.ByPriorityAppend | merge/merge.go:52-71 | So a list of sources can be merged in two parts, split anywhere |
| Merge.MergePriority | merge/merge.go:52-71 | The nested loops compute the priority fold |
| Merge.MergeInto | merge/merge.go:61-67 | The inner loop, keys in any order, merges one source |
| Merge.MergeFirst | merge/merge.go:74-93 | The loops keep the first value of each key |
| Merge.MergeLast | merge/merge.go:96-113 | The loops keep the last value of each key |
| Merge.FirstAndLast | merge/merge.go:74-113 | Each key has the value of the first, or of the last, source that holds it |
| Merge.Resolve | merge/merge.go:284-310 | The resolver returns the first value of the highest priority, the last or the first value, and the empty value for none |
| Merge.ResolveAgrees | merge/merge.go:284-310 | Resolving the list of a key's values picks what the corresponding merge of whole maps picks |
| Loader.Load | loader/loader.go:36-67 | The sequential loader returns the priority merge, or the first failure in source order |
| Loader.MergedResults | loader/loader.go:52-64 | Of the sources that hold a key, the first with the highest priority gives the loaded value |
| Loader.LoadConcurrent | loader/loader.go:276-320 | The concurrent loader returns the priority merge in arrival order exactly when every source loaded before a cancellation was noticed, else the first failure to arrive |
| Loader.ArrivalOrderPriority | loader/loader.go:302-319 | The loaded keys and each key's winning priority do not depend on arrival order |
| Loader.ArrivalOrderIrrelevant | loader/loader.go:302-319 | Arrival order never matters if and only if sources that tie for a key's highest priority give it the same value |
| Loader.DistinctIsEnough | loader/loader.go:302-319 | Distinct priorities per key are enough for that |
| Loader.TiesFollowArrival | loader/loader.go:302-319 | With equal priorities the first source to answer wins |
| StateEngine.WholeRun | core/state.go:245-269 | Over every serial run the version is one more than the number of stores, the data is that of the last store, and replaying all events from nothing gives the same keys with the same raw values and types |
| StateEngine.Engine.Update | core/state.go:245-269 | A closed engine or failing before-hook stores and emits nothing; an after-hook error is returned with the new state in place |
| StateEngine.Engine.Load | core/state.go:272-308 | Loading stores the priority merge of the sources, or nothing when a source, a hook or closure stops it |
| StateEngine.GenerateEvents | core/state.go:334-384 | A key is created, deleted, or updated exactly when it is new, gone, or in both with another raw value or another type; each key has at most one event, with the values of both sides, and deletes come last |
| StateEngine.ReplaySwap | core/state.go:334-384 | Replaying one swap's events takes anything equivalent to the old data to something equivalent to the new |
| StateEngine.EventsMatchDiff | snapshot/snapshot.go:278-307 | The created, updated and deleted events are exactly those of the snapshot diff |
| Observers.RunKeepsInv | core/observer.go:49-170 | Over every interleaving of Subscribe, unsubscribe, Notify and Close calls, each split into its reads and writes of shared state: queues are bounded, delivered then queued is what was taken in order, a registered, active subscription has been offered every event since it registered unless two Notify calls overlapped, a closed queue is not active, what still has to be cancelled is under way, and the wait group counts the running processors |
| Observers.NextKeepsInv | core/observer.go:49-170 | Every single step keeps that invariant |
| Observers.QueueAccounts | core/observer.go:89-112 | In every reachable state offered = delivered + queued + dropped, in order, and nothing is dropped before the queue has been full |
| Observers.DropsOnlyWhenFull | core/observer.go:98-108 | A step drops an event exactly when it sends one to a full, open queue |
| ObserverSend.SendPanics | core/observer.go:97-108 | A notifier that found a subscription active panics when it sends if and only if the processor has exited in between |
| ObserverSend.NoPanic | core/observer.go:79-108 | No run panics in which no subscription is deactivated while a notifier is about to send to it |
| ObserverSend.CanPanic | core/observer.go:79-140 | Whenever a notifier is about to send to a registered subscription whose processor runs, an unsubscription that goes all the way makes the send panic |
| ObserverClose.SendOnClosedQueue | core/observer.go:79-140 | A reachable state in which that happens |
| ObserverClose.DeletedMisses | core/observer.go:79-86 | A reachable state in which a subscription is active, no notification is under way, and it has missed an event, because it has been deleted and not deactivated yet |
| ObserverRuns.CallsBegin | core/observer.go:49-156 | Whatever else is under way every call can begin: a closed manager ignores it, an open one gives the next id, ranges over all registered subscriptions, or takes one off the register |
| ObserverRuns.OverlapReorders | core/observer.go:89-112 | A reachable state in which two overlapping notifications have reached a subscription in the order opposite to the log |
| ObserverRuns.DeletedMeanwhile | core/observer.go:79-112 | A subscription deleted while a notification ranges may be offered the event or not |
| ObserverRuns.JoinsMeanwhile | core/observer.go:49-112 | One that is registered meanwhile may be reached by it or not |
| ObserverRuns.ClosePassesBy | core/observer.go:143-156 | The Range of Close can end while a subscription it passed by is still active and not cancelled |
| ObserverRuns.CloseCatches | core/observer.go:49-156 | A subscription registered while Close ranges can still be cancelled by it |
| ObserverClose.CloseWaitsForAll | core/observer.go:143-170 | When Close's wait ends, every processor has exited and nothing is active, then and for ever, if and only if no Subscribe call past its check is still under way |
| ObserverClose.LateSubscriber | core/observer.go:49-76 | A concrete run in which a call registers after the wait and leaves a running processor that cannot exit |
| ObserverClose.QuietClose | core/observer.go:143-170 | If no Subscribe call is under way when Close begins, then after its Range the wait can end without anyone else unsubscribing, and when it does, every processor has exited and nothing is active |
| ObserverClose.WaitCanEnd | core/observer.go:151-166 | After Close's Range the wait can end without a new unsubscription if and only if every running processor has been cancelled or is about to be by an unsubscription under way |
| ObserverClose.DrainingProgress | core/observer.go:115-140 | While Close waits for processors that all have their cancel or will have it, no step adds work, and every processor step and every step of an unsubscription under way removes some |
| ObserverClose.DrainingNotStuck | core/observer.go:115-140 | Meanwhile, as long as a processor runs, one can exit or an unsubscription under way can go on |
| Fanout.CaughtUpObserver | core/state.go:334-379 | With serial updates issuing the notifications and everything else interleaving: an observer that was registered from the start and still is, is active, dropped nothing and has an empty queue has been delivered all events, and replaying them gives the keys of the engine's data with their raw values and types |
| Fanout.BothTraceKeeps | core/state.go:245-269 | In every reachable state of engine and observers together the events are those notified and then those due, and notifications never overlap |
| ObserverManager.Manager.Notify | core/observer.go:89-112 | A whole call offers the event once to every registered, active subscription, and is a run of the step system |
| ObserverManager.Manager.Subscribe | core/observer.go:49-76 | A new active subscription with an empty queue, a running processor and a fresh id, or none when closed; a run of the step system |
| ObserverManager.Manager.Unsubscribe | core/observer.go:79-86 | The subscription leaves the register, inactive and cancelled; an unknown id changes nothing; a run of the step system |
| ObserverManager.Manager.ProcessOne | core/observer.go:115-140 | One pass moves the oldest queued event to the delivered ones, or exits once cancelled, and changes nothing else |
| ObserverManager.Manager.Close | core/observer.go:143-156 | Every registered subscription is cancelled; closing again changes nothing; a run of the step system |
| ContextLock.HolderCount | internal/syncutil/syncutil.go:171-208 | In every reachable state there is exactly one holder (owner, unobserved helper, or abandoned helper awaiting cleanup) when the mutex is held and none when it is free |
| ContextLock.RunKeepsInv | internal/syncutil/syncutil.go:186-208 | The same from any state that satisfies the invariant, over every run and choice of select branch |
| ContextLock.LockObtained | internal/syncutil/syncutil.go:186-208 | In every reachable state a waiting call that observes `done` becomes the only holder; a call that finds the mutex free owns it at once, and unlocking or cleaning up leaves no holder |
| ContextLock.HandOver | internal/syncutil/syncutil.go:186-200 | When the owner unlocks, a waiting call whose helper is next returns with the mutex |
| ContextLock.Abandoned | internal/syncutil/syncutil.go:201-207 | A call that gave up takes the mutex through its helper and frees it again |
| ContextLock.GivesUp | internal/syncutil/syncutil.go:197-207 | A waiting call may give up at any time, even when `done` is closed already, and the mutex is freed then |
| ContextLock.Drains | internal/syncutil/syncutil.go:186-208 | Without new calls every run is bounded, and where it stops the mutex is free and every helper and cleanup is done |
| ContextLock.NotStuck | internal/syncutil/syncutil.go:186-208 | While the mutex is held or a caller unfinished, some step other than a new call is possible |
| ContextLock.StepUsesWork | internal/syncutil/syncutil.go:186-208 | Every step but a new call uses up work |
| Debounce.DebouncedOutput | watch/watch.go:468-512 | Over every timed run from the start, emissions are an in-order subsequence of receipts, and nothing is received in the whole interval before a timer emission |
| Debounce.RunKeepsInv | watch/watch.go:468-512 | Every emission is of the latest received change, the timer runs a full interval from it, and each received change is emitted, superseded by a later one, pending or the last one lost |
| Debounce.OneFate | watch/watch.go:468-512 | In every reachable state each received change has exactly one of these fates; the latest is never superseded, and one is superseded only if a later one was received |
| Debounce.TimerEmits | watch/watch.go:501-508 | In every reachable state the timer can fire exactly when a whole interval has passed since the pending change; if the output has room, firing and delivering send exactly that change and return to the outer select |
| Debounce.QuietEmits | watch/watch.go:497-508 | A change after which nothing comes for the whole interval is sent at the end of it |
| Debounce.BlockedSend | watch/watch.go:501-508 | A timer send that is blocked on a full output goes through once the consumer has taken one change |
| Debounce.StopLoses | watch/watch.go:482-506 | Stopping or cancelling sends nothing, and the pending change is lost |
| Debounce.SourceCloseFlushes | watch/watch.go:486-500 | After any run, if the source closes with a change pending, it is the last change ever emitted if and only if the output has room, else it is the one lost |
| Decimal.PrintedWithin | types/types.go:206-242 | The printed text is a decimal within 0.0000005 of the value exactly when the sign is not lost and the fraction does not round up to a unit |
| Decimal.FractionWorth | types/types.go:224-239 | Padding and trimming keep the fraction's worth, except that a full unit turns into a tenth |
| Decimal.AppendFloat | types/types.go:215-242 | The padding and trimming loops compute the printed text |
| Decimal.Float64ToStr | types/types.go:206-213 | The shortcut for zero prints what the general case would |
| Snapshots.RunKeepsInv | snapshot/snapshot.go:95-134 | Over every run of Take, Clear and Prune stored ids are contiguous and end at the last id given out, the size is bounded and times do not go back; the last id counts the snapshots ever taken |
| Snapshots.RunHolds | snapshot/snapshot.go:107-250 | After every run the log is an end of the sequence of snapshots taken since the last Clear; without pruning it is all of it or its last maxSize ones, and it is empty right after a Clear |
| Snapshots.PruneExact | snapshot/snapshot.go:252-275 | Prune keeps a suffix, and keeps exactly the newer snapshots if and only if there is a newer one or none at all |
| Snapshots.Manager.Take | snapshot/snapshot.go:107-134 | The new snapshot, with the next id, the given data and its checksum, comes after all stored ones, of which the oldest goes when the log is full |
| Snapshots.Manager.Get | snapshot/snapshot.go:162-181 | The binary search finds an id exactly when it is stored |
| Snapshots.Manager.At | snapshot/snapshot.go:196-217 | The binary search returns the latest snapshot not after t, or else the oldest |
| Snapshots.Manager.Latest | snapshot/snapshot.go:184-193 | The snapshot with the largest id and time |
| Snapshots.Manager.Prune | snapshot/snapshot.go:252-275 | Exactly the snapshots after the cutoff are kept, in order, or all of them if there is no such one; the count returned is that of the old snapshots, removed or not |
| Snapshots.Manager.FirstToKeep | snapshot/snapshot.go:259-269 | The scan's index stays 0 when every snapshot is old |
| Snapshots.Diff | snapshot/snapshot.go:278-307 | The four maps split the keys of both sides with their values: a common key is updated exactly when its raw values or its types differ; it panics exactly when a common key holds two slices or two maps |
| Snapshots.UncomparableShapes | snapshot/snapshot.go:287-288 | Two slices or two maps cannot be compared, nor values that hold them; everything else can |
| Checksum.ComputeChecksum | snapshot/snapshot.go:329-347 | The nested in-place XOR loops compute the same 16 bytes for every iteration order |
| Checksum.SumWith | snapshot/snapshot.go:329-347 | Any entry may be taken first |
| Checksum.RemoveEntry | snapshot/snapshot.go:329-347 | Removing an entry XORs out exactly its contribution |
| Checksum.ValueByteChanged | snapshot/snapshot.go:339-343 | Changing byte i of one string value changes slot (i + 8) % 16 of the checksum, by the difference of the bytes, and no other |
| Checksum.KeyByteChanged | snapshot/snapshot.go:334-337 | Changing byte i of one key changes slot i % 16 and no other |
| Checksum.NonStringsUnseen | snapshot/snapshot.go:339-343 | The checksum does not depend on values that are not strings |
| Checksum.Utf8Decodes | snapshot/snapshot.go:334-343 | The bytes of a character are its UTF-8 encoding (section 3 of RFC 3629), given by the decoding |
| Checksum.XorInto | snapshot/snapshot.go:333-343 | One inner loop XORs each byte into its column, wrapping at 16 from the offset |
| Examples.LoneQuoteLine | confparser/parser.go:173-176 | The line `k: "` makes the parser panic |
| Examples.InnerQuote | export/export.go:589-609 | A quote inside a quoted string comes back changed |
| Examples.UpperKeyword | export/export.go:571-576 | The string TRUE is printed bare and read as a boolean |
| Examples.HashKey | export/export.go:177-181 | A key with a leading hash does not come back |
| Examples.OldSnapshotKept | snapshot/snapshot.go:252-275 | A single old snapshot is counted as pruned and kept |
| Examples.HalfAndNearlyOne | types/types.go:215-242 | Minus one half is printed as 0.5, and 0.9999999 as 0.1 |
| Examples.BarePoint | types/types.go:215-242 | 0.0000002 is printed as a zero and a bare point |

## Left out

- YamlKeys.RoundTrip: lists, durations and times are not part of `Export.Printable`, because the parser cannot read them back; the same holds for Reload.ReloadExact.
- YamlRoundTrip.PlainRoundTrip: a step of the round trip, for plain keys.
- YamlDocuments.DocumentReads: values and keys that open a quote without closing it, or hold quotes or backslashes outside of quotes, are not part of its documents; YamlDocuments.WordRead covers such words on a line without a hash.
- Reload.ReloadExact: the raw values; the types, sources and priorities that a reload gives them are left out.
- YamlRoundTrip.ParsedPrinted: a step of the round trip, for plain keys and scalars that keep to their line; the same holds for YamlRoundTrip.BlockReads. Other trees are covered by YamlKeys.RoundTrip.
- Export.WriteYAMLMap: lists, durations and times, which the writer prints and the parser cannot read; the same holds for Export.WriteEntry.
- Export.SortedKeys: orders strings by code point, which is Go's byte order on valid UTF-8; invalid UTF-8 is not modelled.
- YamlScalars.ParseValue: the float syntax of the standard library and its float formatting are a parameter (`FloatLib`), of which `Sound` states what is needed.
- Types.SameValue: compares floats by bit pattern, so NaN and the two zeros are compared differently than in Go.
- NestedMaps.Nested.Insert: a map that is copied into another must not hold maps itself, because the source would then share the caller's inner maps; the same holds for NestedMaps.CopyInto and DottedKeys.AtMerge; MergeDeep.MergeDeep and MergeDeep.InsertAll admit such values only on coherent keys, where nothing is copied.
- MergeDeep.DeepExact: with MergeDeep.MergeAllWitnessed, on keys that are not coherent, a merged map may hold configuration values only under non-empty, dot-free keys; MergeDeep.IllKeyedValueSurvives shows that the equivalence fails without that.
- NestedMaps.BuildIndexed: values that are themselves maps are excluded, because the source then shares the caller's maps; the same holds for NestedMaps.BuildNested and NestedMaps.Nested.BuildInsert. Nesting.NestersAgree covers them as trees, and SharedMaps.CallersMapsUntouched says when a caller's map is written to.
- Flattening.FlattenValues: `formatValue` is a parameter.
- Merge.MergePriority: a nil map is read as an empty one, and a single source is returned equal, without saying that it is the same map.
- StateEngine.Engine.Update: serial updates only; two racing writers may both read the same old state. The version is not wrapped at 64 bits.
- Observers.RunKeepsInv: that an active subscription has been offered every event in log order is claimed as long as notifications have not overlapped; parent contexts do not end on their own; the wait group's own misuse checks are left out.
- Observers.DropsOnlyWhenFull: a queue size of 0 is admitted and never has room, while a Go channel without a buffer hands an event over to a processor that is already waiting for one. The engine uses 100.
- ObserverManager.Manager.Notify: a call that runs alone, as for the manager's other methods; overlapping calls are covered by the step system.
- ObserverManager.Manager.Close: up to its wait; what the wait achieves is stated in `ObserverClose`, and the context that can cut it short is left out.
- Debounce.RunKeepsInv: one start of the debouncer, and timers as in Go 1.23 and later, where a reset leaves no stale tick.
- Decimal.AppendFloat: exact reals instead of IEEE doubles, and integer parts within int64, beyond which Go leaves the conversion to the implementation; the same holds for Decimal.Float64ToStr.
- Snapshots.Manager.Take: snapshot options and metadata are left out, and the id is not wrapped at 64 bits.
- Template.ProcessTemplateDepth: reads one state throughout, although the engine could swap its state between two lookups.
- File, environment, remote and polling sources, and the network: a source is its data or an error.
- JSON, TOML and environment formats: JSON is delegated to the standard library, and the TOML printer repeats section prefixes that its parser does not split, so it has no inverse.
- Struct binding and validation, encryption, the global instance, registries, pools, the lazy, chained and cached loaders, snapshot listing and stores: thin, or resting on reflection and standard libraries.
- The other primitives beside the mutex (read-write lock, semaphore, latch, barrier).
