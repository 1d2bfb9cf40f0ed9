# A model of a game engine's loaders, stores and protocols

These Dafny modules model the parts of the engine whose correctness is hard to see by reading: how package sets and
prefabs are checked, how references become indices that survive a move, how JSON is skipped and written, how progression
is saved, published and spent, and how animations and sound are unpacked. Each operation is a method in the form the
source has, proved against a specification; the lemmas beside it say what that specification means.

| file | models |
|---|---|
| `PackageGraph.dfy`, `Graphs.dfy` | loading a package set: depth-first search with an explicit stack, import check, canonical order |
| `PackageAssets.dfy`, `Tables.dfy` | typed resolution of asset references, the combined table and the move into it |
| `PackageLinks.dfy` | prefab references, and the load from start to end |
| `ResourceIds.dfy`, `Texts.dfy` | resource, package and local ID grammars |
| `PrefabLinks.dfy` | links between a prefab's children: cycles and longest chains |
| `JsonGrammar.dfy`, `JsonNumbers.dfy`, `JsonReader.dfy`, `JsonLanguage.dfy`, `JsonWriter.dfy`, `JsonStrings.dfy` | the JSON of RFC 8259, sections 2 to 7, skipped by a loop, what that loop accepts besides, a writer into a bounded buffer, and what strings denote |
| `SaveCodec.dfy`, `Crc32.dfy`, `CrcPolynomial.dfy`, `CStrings.dfy` | the progression save and its CRC-32 (section 8 of RFC 1952) |
| `IdentityProtocol.dfy`, `IdentityFailures.dfy` | publishing a player identity once, by any number of callers, on a file system with atomic steps; when a caller fails, and how soon it returns |
| `Fingerprint.dfy` | the content fingerprint: a tagged stream under FNV-1a |
| `Adpcm.dfy` | the Xbox ADPCM decoder (the IMA/DVI codec of section 4.5.1 of RFC 3551) |
| `AnimGraph.dfy` | packed animation frames and the node hierarchy |
| `ServerConfig.dfy`, `ConfigText.dfy` | the server configuration, parsed and printed |
| `Shop.dfy`, `Progression.dfy`, `Roots.dfy` | shop requests: serials, prices, inventory, commit or rollback |
| `AssetPayload.dfy`, `MeshBytes.dfy` | members of a library's payload, and the mesh format |
| `Bits.dfy`, `Registers.dfy`, `Seqs.dfy`, `Finite.dfy`, `Options.dfy` | arithmetic and sequences the others share |

Bytes and machine words are integers with their range; wrap-around and truncation are written out where the source has
them. Strings of the source are character sequences without NUL unless a module says otherwise. `dafny verify
dfyconfig.toml` checks everything.

## What the code does that its documentation does not say

- `src/asset/package.h:49` describes the depth limit as links to the deepest package. The code bounds the path a package
  is first found by. `PackageGraph.LoadsExactlyWhen` gives the exact condition and `PackageGraph.LongPathLoads` a set
  with a longer path that loads.
- `src/app/report.h:61` says keys are NULL at top level. The writer has already opened an object there, so a key is
  needed: without one the text is no JSON (`JsonWriter.KeylessTopIsNotJson`). The text is JSON exactly when every call
  that was not refused puts keys in objects and nowhere else (`JsonWriter.FinishedIsJsonExactlyWhen`).
- `src/app/progression_store.c:130-132` removes the temporary twice after a failed link. That is harmless unless
  temporary names repeat and a link fails for another reason than the name being taken. Then an empty file can be
  published, its bytes change afterwards, and two callers return different identities
  (`IdentityProtocol.DoubleUnlinkRace`, `IdentityProtocol.RaceDisagrees`). Each promise holds in every run exactly when
  not both can happen (`IdentityProtocol.NeverTornExactlyWhen`, `IdentityProtocol.PermanentExactlyWhen`,
  `IdentityProtocol.AgreeExactlyWhen`). When temporary names repeat, the second removal can also take the temporary of
  a caller that writes meanwhile, which then returns false though the identity is there and none of its calls before
  the link reported an error (`IdentityFailures.RobbedCallerFails`); callers whose calls report no error succeed exactly
  when names do not repeat (`IdentityFailures.CalmSucceedExactlyWhen`).
- `src/app/server_config.c:100` cuts an address of more than 15 characters without an error, perhaps into another
  address (`ServerConfig.LongAddressIsCut`). The address a file gives survives being printed and parsed again exactly
  when it has 15 characters or fewer (`ServerConfig.FileReturnsExactlyWhen`).
- `src/asset/mjson.c:69-117` passes over texts that are not JSON: a bad hex digit (`JsonLanguage.LooseHexAccepted`), a
  bracket of the wrong kind (`JsonLanguage.MixedBracketsAccepted`), a key left out in an object or put into an array
  after a comma (`JsonLanguage.KeylessMemberAccepted`, `JsonLanguage.KeyedElementAccepted`), and number characters that
  make no number of the grammar (`JsonLanguage.LooseNumberAccepted`). What it accepts is exactly the loose trees of
  `JsonGrammar` (`JsonLanguage.AcceptsExactly`), and such a tree is JSON exactly when none of the four occurs in it
  (`JsonLanguage.AcceptedIsJsonExactlyWhen`).
- `src/asset/anim.c:315-318` tests a frame's place after it has wrapped 32 bits, and nothing compares the frame count
  with the frame data, so near the end of a four-gigabyte file a frame that is not there can sample
  (`AnimSampling.WrappedFrameSamples`). A component is read in its own block exactly when its offset does not wrap and,
  for a default component, there are default data at all: the loader accepts none
  (`AnimSampling.InsideBlockExactlyWhen`).
- `src/app/server_config.c:228` gives the length written as 2^64 - 1 for a buffer of no bytes
  (`ServerConfig.Server.Format`).
- The chain limit of `src/asset/prefab.c:366-368` can refuse nothing (`PrefabLinks.LimitIsImplied`).
- A save whose ID fields hold bytes after their NUL loads but is not written back the same
  (`SaveCodec.StrayByteLoads`).

## Model

| member | source | states |
|---|---|---|
| PackageGraph.PackageSet.Load | src/asset/package.c:388-468 | up to the linking, loading either refuses for a reason that is really there and leaves the set empty, or holds exactly the packages reachable from the root, each once and ascending by ID, acyclic, each found within 8 links, every import offered by its provider, and flags exactly those the root itself requires |
| PackageGraph.PackageSet.Discover | src/asset/package.c:395-444 | the depth-first search with an explicit stack ends, and a refusal is a real cycle, a real discovery path of 9 links, 17 distinct reachable packages, or a package that is missing, unloadable or declares another ID |
| PackageGraph.Fetch | src/asset/package.c:414-443 | a package not yet loaded passes the depth, count, presence and identity checks in that order, and every refusal names a reachable package |
| PackageGraph.NodeOf | src/asset/package.c:360-365 | the node a required ID means: the root when it declares that ID, else the loaded library of that ID, else none |
| PackageGraph.PackageSet.CheckImports | src/asset/package.c:446-461 | accepts exactly when every import of every reachable package is in the provides list of the package it is taken from; a refusal names an import that is not |
| PackageGraph.PackageSet.MarkDirect | src/asset/package.c:462-463 | afterwards a library is flagged exactly when the root requires it; the lookup never yields the root, since a required root would be a cycle |
| PackageGraph.PackageSet.Sort | src/asset/package.c:464-468 | insertion sort by strcmp: strictly ascending IDs, the same libraries, and nothing else the load promised is lost |
| PackageGraph.LoadsExactlyWhen | src/asset/package.c:388-468 | a root's packages load, up to the linking, exactly when its reachable packages are at most 16, acyclic, present under the IDs asked for, with all imports offered, and the leftmost path to each has at most 8 links |
| PackageGraph.LongPathLoads | src/asset/package.c:405-417 | a set with a 9-link path to a package still loads when that package was found first by a shorter one: depth bounds the discovery path, not the longest path |
| Texts.LessExactly | src/asset/package.c:464-468 | the order of IDs is strcmp's: by the first character that differs, a prefix first |
| Graphs.LeftmostUnique | src/asset/package.c:399-444 | the path a depth-first search discovers a node by is unique: no link passed over on the way can lead to the node |
| Graphs.SearchLeftmost | src/asset/package.c:399-444 | whatever the search meets next and has not finished is met on the leftmost path from where it started |
| Graphs.SearchCycle | src/asset/package.c:407-411 | a successor that is still on the stack closes a real cycle through the stack |
| Graphs.SearchPop | src/asset/package.c:402 | finishing the top of the stack keeps all finished nodes in an order where successors come first |
| Graphs.OrderedIsAcyclic | src/asset/package.c:395-444 | nodes finished in such an order lie on no cycle |
| Graphs.OrderedIsClosed | src/asset/package.c:395-444 | everything reachable from a finished node is finished |
| PackageAssets.AssetBase | src/asset/package.c:481-486 | the base of a library's assets in the combined table is the sum of the counts before it |
| PackageAssets.EntryIndex | src/asset/package.c:490-498 | a provided resource's entry: base plus local place for an asset, local place for a script or prefab, none when absent |
| PackageAssets.ProvidesExactly | src/asset/package.c:262-289 | accepts exactly when everything listed is there under its kind and everything there is listed |
| PackageAssets.IdsListed | src/asset/package.c:262-289 | a kind's IDs are those of its own list, in order |
| PackageAssets.ResourceSet.Add | src/asset/resource.c:225-242 | adds a resource exactly when its ID fits, is not there yet and there is room; otherwise changes nothing |
| PackageAssets.ResourceSet.Find | src/asset/resource.c:219-223 | the entry of exactly this ID, or none when no entry has it |
| PackageAssets.ResourceSet.Resolve | src/asset/resource.c:264-323 | gives the one entry of that ID, of the expected kind, own or imported from its provider, exactly when there is one |
| PackageAssets.SetResourcesFor | src/asset/package.c:504-535 | fills exactly when no resource of the set is offered twice and they are at most 2048; then the entries are all offers with the right provider and index, and the imports are what the requirements declare |
| PackageAssets.TakeImports | src/asset/package.c:521-533 | an import is available from a provider exactly when a requirement on that package lists it |
| PackageAssets.ClosedNeedsLoaded | src/asset/package.c:521-524 | in a loaded set every requirement of every package names a loaded library, never the root |
| PackageAssets.IndexFits | src/asset/package.c:515-517 | for consistent libraries the index of an offer is always found and fits 16 bits, so the inconsistency refusal never happens |
| PackageAssets.LinkAssets | src/asset/package.c:545-572 | links exactly when every reference resolves from its own library's point of view (and the resources fit together, if any library has references); then every index names the resource whose ID was written, and nothing but the indices has changed |
| PackageAssets.LinkLibrary | src/asset/package.c:554-570 | one library's materials and model slots, linked exactly when all their references resolve |
| PackageAssets.ResolvedNames | src/asset/package.c:561-568 | a resolved entry's index is, in the combined table, the resource of the written ID, owned or imported by the library |
| PackageAssets.TakeAssets | src/asset/package.c:649-680 | the combined table holds every library's assets in order, each exactly as it was but for its provider, each model bound; it refuses exactly when some index is out of range, and the libraries keep their scripts and prefabs and none of the assets |
| PackageAssets.TakesMoves | src/asset/package.c:662-673 | entry base plus local of the table is the library's own texture, material or sound with only the provider filled in, a model also with its slots' pixels and its groups' looks, and nothing else is in the table |
| PackageAssets.BindModel | src/asset/asset_res.c:561-587 | binds exactly when every slot names a material in range whose texture is in range; then each slot borrows that texture's size and pixels, untinted, and each group takes its slot's draw mode and visual material |
| PackageAssets.SetModel | src/asset/package.c:639-647 | the model at a combined index, found by stepping over whole libraries, or none past the end |
| PackageAssets.MaterialFindsTexture | src/asset/package.c:561-564 | in a linked set every combined material's texture index is, in the combined table, the texture whose ID it wrote |
| PackageAssets.SlotFindsMaterial | src/asset/package.c:565-569 | in a linked set every combined model's slot index is the material whose ID it wrote |
| PackageAssets.LinkedBinds | src/asset/package.c:674-678 | binding never refuses a linked set |
| PackageAssets.TakenModelDraws | src/asset/package.c:649-680 | each slot of a taken model draws the pixels of the texture named by the material named in the slot |
| PackageAssets.SameModelAfter | src/asset/package.c:639-680 | the model an index gives before the move is the one at that index of the table after it |
| PackageLinks.LoadSet | src/asset/package.c:388-479 | the whole load: ready exactly when the packages are fit, each is found by a short path, and in the one set they make every asset and prefab reference resolves; then every index is filled in right, otherwise the set is empty and a refused package is really at fault |
| PackageLinks.LoadAndTake | src/asset/package.c:388-680 | loaded, linked and moved in one: the move refuses no loaded set, and afterwards the table is the one set's assets, every slot has the size and pixels of the texture that the sources hold under the name its named material gives, every group that material's look, and every prefab child and binding the model and the clip it named |
| PackageLinks.LoadedIsSourced | src/asset/package.c:414-443 | the loaded libraries are those of the sources, but for the indices that links fill in |
| PackageLinks.CompleteOnce | src/asset/package.c:463-468 | a root and its sources make one set only, in one order, whatever order the packages were found in |
| PackageLinks.LinkPrefabs | src/asset/package.c:578-637 | links every prefab exactly when there is none or the offers fit together and every reference resolves from its own library's view; changes nothing but the indices |
| PackageLinks.LinkPrefab | src/asset/package.c:592-633 | one prefab's children, then its bindings' sounds, accepted exactly when all resolve |
| PackageLinks.LinkChild | src/asset/package.c:594-619 | a child's model, sound and script: each reference written is resolved to one more than its combined index, within 16 bits, or to the providing library and the script's place in it |
| PackageLinks.ResolveScript | src/asset/package.c:605-617 | a script resolves exactly when a library that provides it to this one declares that it can be used; it is always found where the resolver says |
| PackageLinks.OneProvider | src/asset/package.c:578-637 | what fits together is provided by one library only |
| PackageLinks.IndexSmall | src/asset/package.c:599-605 | no combined index reaches the 16-bit limit, so one more never wraps to none |
| Tables.At | src/asset/package.c:639-647 | stepping over whole parts finds the entry of the concatenation |
| Tables.Locate | src/asset/package.c:481-486 | every index of the combined table is base plus local of some part |
| Tables.StampedAt | src/asset/package.c:662-672 | after the move, entry base plus local is the part's entry with its provider |
| ResourceIds.Parse | src/asset/resource.c:100-126 | refuses exactly the texts over 96 bytes or without a namespace:type/name reading in the grammar and limits; otherwise its spans are that one reading, and the type decides between unknown, reserved and good |
| ResourceIds.ReadingUnique | src/asset/resource.c:107-114 | a text has one reading, so the spans rebuild it |
| ResourceIds.IsSegment | src/asset/resource.c:83-98 | accepts exactly [a-z][a-z0-9_]* up to the limit |
| ResourceIds.FindKind | src/asset/resource.c:45-50 | the registered type of that name, when there is one |
| ResourceIds.Registry | src/asset/resource.c:12-41 | the fourteen registered type names in order; animation and ruleset are the reserved ones |
| ResourceIds.PackageIdValid | src/asset/resource.c:140-157 | accepts exactly the IDs of at most 64 bytes made of one to eight segments joined by dots |
| ResourceIds.PackageIdSplits | src/asset/resource.c:140-157 | being so made is decided by the one split at the dots |
| ResourceIds.LocalIdValid | src/asset/prefab.c:34-54 | accepts exactly [a-z][a-z0-9]*(_[a-z0-9]+)* of at most 23 bytes |
| ResourceIds.LocalIdIsPlain | src/asset/prefab.c:40-53 | the word grammar and the character-by-character check describe the same texts |
| ResourceIds.ChildNameInjective | src/asset/prefab.h:40-50 | instance and child can be read back from <instance>__<child> |
| ResourceIds.ExpandedEntityParses | src/asset/prefab.h:40-50 | every expanded child's entity ID is well formed within the 48 and 96 byte limits, and never an authored local ID |
| ResourceIds.ExpandedEntityInjective | src/asset/prefab.h:44-50 | namespace, instance and child are determined by the expanded entity ID |
| PrefabLinks.Prefab.LinkChildren | src/asset/prefab.c:311-372 | accepts only legal links on an acyclic sibling graph within the chain limit, with the depth of every child its longest outgoing chain; each refusal is a bad link, a real cycle or a real chain over the limit |
| PrefabLinks.Prefab.Resolve | src/asset/prefab.c:313-331 | succeeds exactly when every link names another child by ID (the last so named), with an event its own child emits and an input that other child accepts, and then the targets are those children; otherwise the first link for which that fails fails in the way the refusal says |
| PrefabLinks.OneVerdict | src/asset/prefab.c:320-329 | a link is good or wrong in exactly one of the four ways |
| PrefabLinks.OneEmitter | src/asset/world_def.c:191-196 | every event is emitted by one kind of child only |
| PrefabLinks.OneAcceptor | src/asset/world_def.c:198-204 | every input is accepted by one kind of child only |
| PrefabLinks.Explore | src/asset/prefab.c:336-370 | one root's search: marks, stack and measured depths stay consistent and the stack never outgrows the children |
| PrefabLinks.CheckChains | src/asset/prefab.c:332-371 | over all roots: accepts exactly when there is no cycle and no chain over the limit, and then every depth is exact |
| PrefabLinks.BestIsLongest | src/asset/prefab.c:360-365 | when a child is finished, one more than the deepest of its targets is its longest chain |
| PrefabLinks.ExactlyWhen | src/asset/prefab.c:311-372 | of resolved links, acceptance is exactly no cycle and no chain over the limit |
| PrefabLinks.LimitIsImplied | src/asset/prefab.c:366-368 | with 16 children the chain limit of 16 can refuse nothing: an acyclic chain has at most 15 links |
| Graphs.LongestFromSuccessors | src/asset/prefab.c:360-365 | the longest chain from a node is one more than the longest from its successors |
| JsonReader.Reader.Skip | src/asset/mjson.c:69-117 | the loop with a depth counter computes what the two mutually recursive readings of it do, ending within the input |
| JsonReader.SkipsWellFormed | src/asset/mjson.c:69-117 | every well-formed value, white space and all, is passed over to its very end exactly when it nests at most 64 deep and each number token is at most 39 characters and, unless lenient, finite; otherwise it is refused |
| JsonReader.SkipsLoose | src/asset/mjson.c:69-117 | so is every looser tree: brackets that do not match, a key or none after any comma, any run of number characters, escapes of four characters that are small as a number |
| JsonReader.SkipsValue | src/asset/mjson.c:69-117 | the same for a loose value inside any number of open containers |
| JsonReader.SkipsItems | src/asset/mjson.c:78-115 | a container's items are passed over one by one, keys recognised after a brace and after commas, strings in arrays not taken for keys |
| JsonReader.ItemKey | src/asset/mjson.c:103-109 | a key is read exactly where an item has one: a string that is a value is left where it was |
| JsonReader.FitsExactly | src/asset/mjson.c:78-94 | fitting the limits at every level is nesting at most 64 in all and every number short enough |
| JsonReader.Reader.Str | src/asset/mjson.c:22-53 | a string nobody wants the value of is passed over as the escape rules say |
| JsonStrings.StringInto | src/asset/mjson.c:12-53 | a string is read into a buffer exactly when it ends, everything it denotes (RFC 8259, section 7) is printable and it fits with its NUL; then the buffer holds what it denotes, and it is terminated in any case |
| JsonStrings.StringBodyInto | src/asset/mjson.c:22-53 | the loop's value, character by character, is what the rest of the string denotes |
| JsonStrings.RestStep | src/asset/mjson.c:26-50 | a string denotes its first character or escape, then what the rest denotes |
| JsonGrammar.DigitInOrder | src/asset/mjson.c:38-39 | the digits have the values 0 to 15 in order, in either case |
| JsonReader.StringOver | src/asset/mjson.c:22-53 | every loose string body, and so every well-formed one, is passed over to its closing quote |
| JsonReader.FourDigits | src/asset/mjson.c:35-41 | four characters after a backslash and u pass exactly when their value is at most 0xFFFF, a bad digit counting 99 |
| JsonReader.Reader.Num | src/asset/mjson.c:55-67 | past blanks takes the whole run of number characters, refusing over 39 of them or one strtod does not take whole and finite |
| JsonReader.Reader.AnyNum | src/asset/mjson.c:87-92 | lenient: any run of 1 to 39 number characters |
| JsonLanguage.AcceptsExactly | src/asset/mjson.c:69-117 | the skip accepts, up to a place, exactly when what stands there is a loose tree within the limits |
| JsonLanguage.ReadsValue | src/asset/mjson.c:69-117 | whatever the loop got past, in any number of open containers, was a loose tree within the limits |
| JsonLanguage.ReadsItems | src/asset/mjson.c:97-114 | the rest of a container the loop got past was a list of items and a bracket |
| JsonLanguage.PassesOnce | src/asset/mjson.c:69-117 | what was passed over has one loose tree only |
| JsonLanguage.JsonExactlyWhen | src/asset/mjson.c:69-117 | the text of a loose tree is JSON exactly when every bracket matches, keys stand in objects and nowhere else, every escape has four hex digits and every number is a number token |
| JsonLanguage.AcceptedIsJsonExactlyWhen | src/asset/mjson.c:69-117 | whatever the skip accepted is JSON exactly when its one tree is strict in these four ways |
| JsonGrammar.WellFormedIsStrict | src/asset/mjson.c:69-117 | the well-formed trees are the strict ones among the loose |
| JsonNumbers.NumberTokenExactly | src/asset/mjson.c:84-93 | the number tokens, which strict numbers are compared with, are exactly what a ten-state automaton for section 6 of RFC 8259 reads to an end |
| JsonLanguage.LooseHexAccepted | src/asset/mjson.c:36-41 | a string with a bad hex digit is accepted, and no well-formed value spells it |
| JsonLanguage.MixedBracketsAccepted | src/asset/mjson.c:112 | a bracket of the wrong kind closes a container, and no well-formed value spells that |
| JsonLanguage.KeylessMemberAccepted | src/asset/mjson.c:103-110 | a member without a key passes after a comma, and no well-formed value spells that |
| JsonLanguage.KeyedElementAccepted | src/asset/mjson.c:103-110 | an array element with a key passes after a comma, and no well-formed value spells that |
| JsonLanguage.LooseNumberAccepted | src/asset/mjson.c:84-93 | any run of number characters passes when strtod takes it or the reader is lenient; it is JSON exactly when it is a number token |
| JsonLanguage.LeadingZeroAccepted | src/asset/mjson.c:84-93 | a number with a leading zero is such a run |
| JsonWriter.Writer.constructor | src/app/report.c:69-75 | starts the outermost object when the buffer is over 22 bytes, else refuses everything |
| JsonWriter.Writer.Begin | src/app/report.c:112-120 | writes comma and key exactly when the whole item fits with the reserve, else nothing, and stops accepting |
| JsonWriter.Writer.OpenLevel | src/app/report.c:122-129 | opens a container unless 15 are open or it does not fit; the text stays that of the open levels, with room to close them all |
| JsonWriter.Writer.CloseLevel | src/app/report.c:134-141 | closes the level with the bracket it was opened with, which always fits |
| JsonWriter.Writer.Str | src/app/report.c:146-150 | puts an escaped string, or refuses it whole |
| JsonWriter.Writer.Put | src/app/report.c:152-169 | puts a number or word already spelled, or refuses it whole |
| JsonWriter.Writer.Esc | src/app/report.c:98-108 | writes exactly the quoted and escaped text |
| JsonStrings.EscapedDenotes | src/app/report.c:98-108 | what is written for a string is a string body that denotes (RFC 8259, section 7) exactly that string |
| JsonStrings.WrittenIsRead | src/app/report.c:98-108 | wherever it stands, the manifest reader gets back the string that was written, or refuses it exactly when a character of it does not print or it does not fit |
| JsonWriter.QuotedIsToken | src/app/report.c:98-108 | what is written for any string is a string token |
| JsonWriter.EscapedInjective | src/app/report.c:98-108 | different strings are written differently |
| JsonWriter.Writer.Finish | src/app/report.c:195-201 | closes every level and the object: the buffer holds the whole document, terminated, shorter than the buffer; 0 for a buffer of at most 22 bytes |
| JsonWriter.HoldsUpToRefusal | src/app/report.c:77-144 | after any calls whatever the finished document is the one the calls before the first refused one make, however the later opens and closes pair up |
| JsonWriter.RootWellFormed | src/app/report.c:195-201 | the finished document is a well-formed object exactly when keys stand in objects and nowhere else and every value put is a token |
| JsonWriter.RunDisciplined | src/app/report.c:122-169 | that holds exactly when every call not refused kept the key discipline: what is refused leaves no trace |
| JsonWriter.FinishedIsJsonExactlyWhen | src/app/report.c:69-201 | the finished text, whatever the calls, is JSON exactly when every call not refused kept the key discipline |
| JsonWriter.KeylessTopIsNotJson | src/app/report.c:112-129 | an object opened without a key at top level, as the header has it, gives a text that is not JSON |
| JsonWriter.FinishedReads | src/app/report.c:195-201 | any finished document, cut or whole, is a well-formed JSON object that the manifest reader passes over to its end |
| Crc32.ComputeCrc | src/app/progression_store.c:35-42 | the bitwise loop computes the CRC as a fold of register steps |
| Crc32.ShiftIsBijective | src/app/progression_store.c:39-40 | every bit step is a bijection of the 32-bit register, with an explicit inverse |
| Crc32.ByteStepInjective | src/app/progression_store.c:37-41 | every byte step is injective in the register and in the byte |
| Crc32.CrcSeesOneByte | src/app/progression_store.c:35-42 | a single changed byte always changes the CRC |
| Crc32.CrcSeesBurst | src/app/progression_store.c:35-42 | damage confined to four consecutive bytes always changes the CRC |
| CrcPolynomial.CrcIsRemainder | src/app/progression_store.c:35-42 | the CRC is the complement of the remainder that long division leaves of the message, its first 32 bits complemented and 32 zeros appended, by the polynomial of RFC 1952, section 8 |
| CrcPolynomial.BitDivides | src/app/progression_store.c:39-40 | feeding one bit to the register is one step of that division |
| CrcPolynomial.PolynomialTerms | src/app/progression_store.c:40 | the constant's bits are the terms of x^32 + x^26 + ... + 1 below x^32, highest first |
| SaveCodec.IsValid | src/app/progression_store.c:47-57 | accepts exactly the profiles a save may hold |
| SaveCodec.Put | src/app/progression_store.c:43-44 | writes the low n bytes of a value, lowest first, and nothing else |
| SaveCodec.Get | src/app/progression_store.c:45-46 | reads the value of n bytes, lowest first |
| SaveCodec.Encode | src/app/progression_store.c:58-74 | 0, writing nothing, exactly for an invalid profile; otherwise the image of the profile with its IDs zero-padded |
| SaveCodec.ImageSize | src/app/progression_store.c:58-74 | the encoded length is the base plus 68 bytes an item and never exceeds the buffer |
| SaveCodec.ImageLaidOut | src/app/progression_store.c:58-73 | every field stands at its own offset: gold at 16, experience at 24, and so on to the items of 68 bytes from 401 |
| SaveCodec.ImageInjective | src/app/progression_store.c:58-74 | no two saves share an image |
| SaveCodec.Decode | src/app/progression_store.c:75-98 | accepts exactly the images of valid saves and gives the one save behind each |
| SaveCodec.SaveThenLoad | src/app/progression_store.c:58-98 | saving and loading any valid profile gives it back: every number, every item in its place, and IDs that are the same strings |
| SaveCodec.ReencodesExactlyWhenZeroed | src/app/progression_store.c:64-71 | a loaded file is what saving it would write exactly when its ID fields are clear after their NULs |
| SaveCodec.StrayByteLoads | src/app/progression_store.c:75-98 | and there are files that load and are not |
| SaveCodec.DamageIsRefused | src/app/progression_store.c:75-82 | changing any one byte of a save, header included, makes it refused |
| SaveCodec.BurstIsRefused | src/app/progression_store.c:75-82 | so does any damage inside four consecutive bytes of the body |
| SaveCodec.ResizedIsRefused | src/app/progression_store.c:75-82 | a save cut short or with bytes after it is refused |
| IdentityProtocol.StepKeeps | src/app/progression_store.c:116-138 | in a safe environment every atomic step of any caller keeps the invariant and the published identity |
| IdentityProtocol.RunKeepsInv | src/app/progression_store.c:116-178 | so the invariant holds in every reachable state of any number of callers |
| IdentityProtocol.PublishedForGood | src/app/progression_store.c:152-178 | in a safe environment what was published at some moment is published, byte for byte, ever after |
| IdentityProtocol.CallersAgree | src/app/progression_store.c:152-178 | in a safe environment all callers that ever return true, in any interleaving, return the same 16 bytes |
| IdentityProtocol.NeverPartial | src/app/progression_store.c:116-138 | an identity that was not there before holds 16 bytes from its first moment |
| IdentityProtocol.DoubleUnlinkRace | src/app/progression_store.c:130-132 | when names can repeat and links can fail otherwise, the second unlink after a failed link lets an empty file be published as another caller's identity |
| IdentityProtocol.RaceDisagrees | src/app/progression_store.c:130-132 | the same run goes on to change the published bytes and to return another identity to a later caller |
| IdentityProtocol.NeverTornExactlyWhen | src/app/progression_store.c:116-138 | an identity is never published torn exactly when temporary names do not repeat or a link fails only because the name is taken |
| IdentityProtocol.AgreeExactlyWhen | src/app/progression_store.c:152-178 | all callers agree in every run exactly in those environments |
| IdentityProtocol.PermanentExactlyWhen | src/app/progression_store.c:116-138 | a published identity never changes in any run exactly in those environments |
| IdentityFailures.RunIsTraced | src/app/progression_store.c:116-178 | every run has the events that made it |
| IdentityFailures.DoomedExactlyWhen | src/app/progression_store.c:116-178 | in every run, whatever the environment, a caller is on its way to returning false exactly when one of its own events failed: a call that reported an error other than a file in the way, a temporary gone when it is linked, or a published file read to its end that is not 16 bytes |
| IdentityFailures.ReturnsByItsEvents | src/app/progression_store.c:152-178 | so a caller that returned false met such a failure, and one that returned true met none: who loses the race starts over |
| IdentityFailures.CalmNeverFails | src/app/progression_store.c:152-178 | without repeated temporary names, a caller none of whose calls reports an error never fails, and what it returns is the 16 bytes published |
| IdentityFailures.AloneReturns | src/app/progression_store.c:152-178 | a caller left alone, wherever the others stand, returns within 44 of its own steps |
| IdentityFailures.NeverStuck | src/app/progression_store.c:116-178 | a caller that has not returned always has a step to take that is no error |
| IdentityFailures.FinishAlone | src/app/progression_store.c:152-178 | so from every reachable state any caller can return by at most 44 steps of its own |
| IdentityFailures.CalmReturns | src/app/progression_store.c:152-178 | and, if none of its calls reported an error and temporary names do not repeat, it returns true with the identity that is then published |
| IdentityFailures.RobbedCallerFails | src/app/progression_store.c:130-132 | with repeated temporary names the loser's second unlink takes the next writer's temporary away, and that writer returns false though the identity is there |
| IdentityFailures.CalmSucceedExactlyWhen | src/app/progression_store.c:116-178 | callers whose calls all succeed never fail, exactly when temporary names do not repeat |
| Fingerprint.Fnv.Feed | src/app/compat.c:25-30 | the accumulator is the raw FNV-1a hash of all bytes fed so far |
| Fingerprint.Fnv.WriteText | src/app/compat.c:53-63 | feeds the tag, the length and the text up to its NUL |
| Fingerprint.Fnv.WriteNum | src/app/compat.c:39-51 | feeds the tag and the normalised bits, -0 as +0 and every NaN as one |
| Fingerprint.Fnv.WriteAsset | src/app/compat.c:65-81 | feeds exactly the entry's encoding |
| Fingerprint.EntryLaidOut | src/app/compat.c:63-82 | an entry is its 36 fields in order, each after its own tag: texts as length and bytes to the NUL, numbers normalised, flags as 0 or 1; then the end mark |
| Fingerprint.StreamLaidOut | src/app/compat.c:83-92 | the stream is version 2, then the characters' count and entries, then the weapons' |
| Fingerprint.KnownHashes | src/app/compat.c:25-30 | the hash has the values FNV-1a 64 is published with for the empty text and for "a" |
| Fingerprint.ContentFingerprint | src/app/compat.c:83-92 | the fingerprint is the raw hash of the stream of both rosters, 0 folded to 1 |
| Fingerprint.StreamDecidesRosters | src/app/compat.c:39-92 | two streams are equal exactly when both rosters have as many entries and these agree in each of the 36 fields: texts up to their NUL, integers and flags, and numbers that are the same pattern, two NaNs or two zeros |
| Fingerprint.PrimeInverts | src/app/compat.c:27-29 | multiplying by the prime is undone by multiplying by its inverse mod 2^64 |
| Fingerprint.StepInjective | src/app/compat.c:27-29 | each hash step is injective in the accumulator and in the byte |
| Fingerprint.OneByteChangesHash | src/app/compat.c:25-92 | streams of equal length that differ in one byte have different raw hashes; the fingerprints agree exactly when the raw hashes are 0 and 1 |
| Adpcm.DecodeGroup | src/asset/sound.c:101-124 | four bytes of one channel give the next eight frames (seven at the end), low nibble first, and write nothing else |
| Adpcm.DecodeHeaders | src/asset/sound.c:92-100 | each channel's header is its first frame and the state its codes start from, the index held to 88 |
| Adpcm.DecodeBlockInto | src/asset/sound.c:90-125 | a block writes each of its 64 frames a channel once, from its own 36 bytes a channel |
| Adpcm.Decode | src/asset/sound.c:79-128 | decodes exactly the whole-block inputs of one or two channels that fit, refusing others without writing |
| Adpcm.DecodesConcat | src/asset/sound.c:88-125 | decoding concatenated blocks concatenates their decodings |
| Adpcm.StereoIsTwoMonos | src/asset/sound.c:88-125 | stereo decoding is the interleaving of the mono decodings of the two de-interleaved streams |
| Adpcm.SamplesIn16Bits | src/asset/sound.c:60-77 | every decoded sample is a 16-bit value |
| Adpcm.StepMoves | src/asset/sound.c:60-77 | a code whose low three bits are m moves the sample by (2m+1)/8 of a step, less what the shifts cut off, in the direction of its fourth bit and held to 16 bits; small moves lower the step index by one and large ones raise it by 2(m-3), within 0 to 88 |
| Adpcm.StepGrows | src/asset/sound.c:44-51 | the step table starts at 7 and grows by a tenth each time, give or take 0.8, to 29794, and ends, cut to 16 bits, at 32767 |
| LittleEndian.Int16Wraps | src/asset/sound.c:93 | a sample's two bytes are read as the one 16-bit value congruent to them, low byte first, modulo 2^16 |
| AnimGraph.World | src/asset/anim.c:362-381 | whatever the order nodes are listed in, a node whose parent chain reaches a root gets the product of the locals along it, any other keeps its local, and node_count passes suffice |
| AnimGraph.PlacedOnce | src/asset/anim.c:362-381 | a rooted node's chain, and so its product, is the only one |
| AnimGraph.RootedOrCyclic | src/asset/anim.c:362-381 | a chain that never reaches a root enters a cycle, and the other way round |
| AnimGraph.RootedExactlyDone | src/asset/anim.c:369-377 | when a pass makes no progress the nodes done are exactly those whose chain reaches a root |
| AnimSampling.FlaggedFrameSize | src/asset/anim.c:116-126 | the frame size by the flags is the packed size of the flagged components |
| AnimSampling.LoadAccepts | src/asset/anim.c:221-231 | accepts exactly the uncompressed animations whose sizes agree with their flags |
| AnimSampling.ReadNode | src/asset/anim.c:275-309 | each component is read at the place its flag's cursor has reached, and the cursors advance by what was read |
| AnimSampling.SampleFrame | src/asset/anim.c:311-324 | samples exactly the frames inside the frame data; both cursors end past all of their components |
| AnimSampling.ComponentsInsideBlocks | src/asset/anim.c:221-324 | for an accepted animation with default data, every component of a frame that samples lies inside its own block, and the frame's block inside the frame data, when the blocks end within 32 bits |
| AnimSampling.InsideBlockExactlyWhen | src/asset/anim.c:221-324 | whatever the frame, a component of an accepted animation is read inside its own block exactly when its offset does not wrap 32 bits and, if it is a default component, there are default data |
| AnimSampling.WrappedFrameSamples | src/asset/anim.c:311-324 | an accepted animation that says it has four frames and holds one: its last samples, from the start of the file |
| AnimSampling.PackedTogether | src/asset/anim.c:116-126 | frame and default components together are 24 bytes a node |
| AnimSampling.LikeComponentsDisjoint | src/asset/anim.c:275-324 | components from the same cursor never overlap |
| ServerConfig.Server.Parse | src/app/server_config.c:174-205 | parsing reads the text line by line, over what is set, and returns the error count: one more for each line without an equals sign or with a value its key does not take |
| ServerConfig.Server.ReadLine | src/app/server_config.c:179-200 | a line counts to the buffer's 1199 characters, a NUL or a #, is trimmed, and splits at its first = |
| ServerConfig.Server.Apply | src/app/server_config.c:87-163 | a value its key does not take is exactly one error and changes nothing else but map slots; one it takes sets what it means and nothing else; an unknown key changes nothing |
| ServerConfig.KeyMeans | src/app/server_config.c:87-163 | for every key, which values it takes (lengths, ranges, words) and what each sets: yes, true, 1 and on are true, team_slayer is team, numbers what they spell, names fill the slots in order |
| ServerConfig.KeyNames | src/app/server_config.c:91-158 | the 21 keys as a file names them, in the order they are printed |
| ServerConfig.SetTakes | src/app/server_config.c:87-163 | which values each key takes, and that a refused one changes no map slot either unless the key is maps |
| ServerConfig.LinesErrors | src/app/server_config.c:174-205 | the errors are as many as the refused lines |
| ServerConfig.Server.constructor | src/app/server_config.c:8-24 | a server starts with the default configuration: everything clear but the name, the port, eight players, one map, three bots and the timings |
| ServerConfig.Server.ReadMaps | src/app/server_config.c:112-123 | map names are stored one by one and counted only when all are good, so an error leaves earlier slots overwritten |
| ServerConfig.Server.Format | src/app/server_config.c:207-229 | every key in order, one line each, cut to the buffer, and the length written, but for a buffer of no bytes, whose length is given as 2^64 - 1 |
| ServerConfig.ParsedKept | src/app/server_config.c:87-205 | whatever the text, parsing keeps every field in range, texts trimmed and printable and without #, and the maps named |
| ServerConfig.LineWritten | src/app/server_config.c:207-228 | each printed line is the key's name, an equals sign between spaces and the field as written: on or off, team, (set) for a password |
| ServerConfig.LineBack | src/app/server_config.c:207-228 | each printed line, parsed, sets its field to what it was |
| ServerConfig.ParsedPrinted | src/app/server_config.c:174-228 | printing any parsed configuration and parsing it over anything gives all its fields back, the password as shown and the binding as its text reads |
| ServerConfig.ReturnsExactlyWhen | src/app/server_config.c:174-228 | over the defaults no errors and the same binding come back exactly when the address text reads as itself, and then the file printed again is the same file |
| ServerConfig.AddressKeptExactlyWhen | src/app/server_config.c:96-101 | an address is stored as given exactly when it has 15 characters or fewer, and no error is counted either way |
| ServerConfig.FileReturnsExactlyWhen | src/app/server_config.c:87-228 | a file parsed over the defaults, printed, and parsed over the defaults again: the address it gave is bound without an error exactly when it has 15 characters or fewer; then, or if it gave none, there are no errors and every printed field comes back |
| ServerConfig.LongAddressIsCut | src/app/server_config.c:100 | a 16-character spelling is cut, with no error, into another address that reads as itself |
| ConfigText.TokensOfListed | src/app/server_config.c:112-123 | splitting a printed map list gives the names back |
| ConfigText.TokensOfSpread | src/app/server_config.c:112-123 | so do names with any commas, spaces and tabs between, before and after them |
| ConfigText.ParseIntExactly | src/app/server_config.c:38-45 | a number is read exactly when the text is space, a sign or none, and decimal digits that spell it, and it is in range |
| ConfigText.ParseDecimal | src/app/server_config.c:38-45 | a printed number reads as itself within its range |
| ConfigText.TrimExactly | src/app/server_config.c:166-172 | only the six space characters are trimmed off, at both ends, and none is left there |
| ConfigText.TrimIsTrimmed | src/app/server_config.c:166-172 | trimming leaves a piece of the text with no space at either end |
| Roots.Root | src/engine/progression.c:10-20 | the integer square root by shifts: r squared is at most n and n is below the next square, within 64 bits throughout |
| Progression.CheckId | src/engine/progression.c:52-61 | accepts exactly the texts of 1 to 63 of the allowed characters |
| Progression.GivenExactly | src/engine/progression.c:70-80 | an item can be added exactly when its ID is valid, something is added, and its quantity still fits 32 bits or, if it is new, a slot is free |
| Progression.TakenExactly | src/engine/progression.c:81-91 | exactly as much can be taken as there is |
| Progression.GivenQuantity | src/engine/progression.c:70-80 | adding changes that item's quantity by so much and no other's |
| Progression.TakenQuantity | src/engine/progression.c:81-91 | taking changes that item's quantity by so much and no other's, closing up an emptied slot |
| Progression.TakenAfterGiven | src/engine/progression.c:70-91 | taking what was added gives the profile back |
| Progression.TakenValid | src/engine/progression.c:81-91 | taking leaves a valid profile exactly when it does not take the last of something equipped |
| Shop.Survival.Request | src/app/survival.c:95-128 | a stale or unknown request changes nothing and answers with the last result; an accepted one leaves disk equal to memory or changes no profile, health or mana, and no other player in any case |
| Shop.Survival.Save | src/app/survival.c:37-42 | a bound player's profile reaches the disk exactly when it is valid and the store works |
| Shop.Survival.BuyItem | src/app/survival.c:110-115 | the purchase rules in order: weapon known, tier left, not owned, gold enough, room for it |
| Shop.PriceIsProduct | src/app/survival.c:84-91 | a tier costs exactly the price times the square of the next tier, or the most there is when that does not fit or the tier is the last |
| Shop.PriceNeverFalls | src/app/survival.c:84-91 | no tier is cheaper than the one before |
| Shop.BuyDebits | src/app/survival.c:110-115 | a purchase takes exactly its price, which the gold covers, adds one of what was bought, and changes nothing else |
| Shop.UseTakesOne | src/app/survival.c:120-124 | using takes one of the item and lifts neither health nor mana over its maximum |
| Shop.BuyDoneExactlyWhen | src/app/survival.c:92-115 | a purchase is done exactly when a wave rests, the player lives and is near the shop, the gold covers a price below the most there is, the tier is not the last, the game knows the weapon, gear is not owned yet, and there is room |
| Shop.EquipWears | src/app/survival.c:116-119 | a weapon goes to the hand that is out, armor to the third slot and a spell to the fourth, exactly when the player has it and the game knows the weapon; the other slots stay |
| Shop.UseRestores | src/app/survival.c:120-124 | a potion is drunk exactly when there is one and something to restore, and restores its power of health, as a share of the maximum, or of mana, up to the maximum |
| Shop.PrestigeResets | src/app/survival.c:105 | prestige needs level 50, a resting wave and a near shop, and changes nothing but the prestige, by one, and the experience, to 0 |
| Shop.TriedIsValid | src/app/survival.c:104-126 | only the store can refuse what the rules allow a valid profile, but for using up the last of a consumable that a slot still names |
| Shop.LastEquippedPotionRefused | src/app/survival.c:120-126 | a valid profile of that one kind, refused though the store works |
| Shop.FreshByPosition | src/app/survival.c:98-100 | a request is executed exactly when its position is ahead by less than half the 16-bit range, around the wrap |
| Shop.StaleNeverRuns | src/app/survival.c:98-101 | a request up to 32768 positions behind is never executed; one further behind is |
| Shop.TracksSender | src/app/survival.c:98-101 | while positions stay within half the range the counter is the highest position executed |
| Shop.ExecutedInOrder | src/app/survival.c:98-101 | with duplicates and reordering, no request is executed twice and those executed are in the order sent |
| Shop.SeenIsCounter | src/app/survival.c:101 | the last serial a player's state holds is the low 16 bits of that counter |
| Shop.RunIsAccounted | src/app/survival.c:95-128 | over any run of requests and store failures disk and memory agree and are valid, and every unit of gold is accounted for by a saved purchase |
| Shop.CharacterLevel | src/engine/progression.c:33-34 | level 50 is reached exactly at 2401 thousand experience |
| AssetPayload.Pending.Bind | src/asset/asset_res.c:425-482 | binds exactly when there is a way to: members add up to the payload, back the resources one to one, and each decodes |
| AssetPayload.Pending.LayOut | src/asset/asset_res.c:428-437 | offsets are prefix sums; refused exactly when the sizes do not add up to the payload within the limit |
| AssetPayload.Pending.Match | src/asset/asset_res.c:438-451 | accepts exactly when every resource's member is there, none is shared and none is left over; then the places are a bijection |
| AssetPayload.SlicesTile | src/asset/asset_res.c:428-437 | the member slices laid end to end are the payload |
| AssetPayload.BacksCounts | src/asset/asset_res.c:438-451 | there are as many members as resources |
| AssetPayload.OnlyWay | src/asset/asset_res.c:442-449 | canonical members back the resources in one way at most |
| AssetPayload.DecodeMesh | src/asset/asset_res.c:365-414 | gives the mesh the payload spells, exactly when it spells a valid one |
| AssetPayload.SaysOne | src/asset/asset_res.c:365-414 | a payload spells one mesh at most |
| MeshBytes.SpelledSays | src/asset/asset_res.c:361-414 | the bytes of a mesh, spelled out part by part, say that mesh and no other, so a valid one comes back |
| AssetPayload.InBoundsMeans | src/asset/asset_res.c:389-390 | by the float's exponent and fraction: finite and at most 4096 either way |
| AssetPayload.GroupsTile | src/asset/asset_res.c:403-413 | the groups of a valid mesh tile its index array: every index is in exactly one |
| AssetPayload.Decode | src/asset/asset_res.c:453-478 | pixels, samples and meshes each need exactly their member's size, and decode byte for byte |

## Left out

- PackageGraph.PackageSet.Load: what a library holds besides its declaration is an opaque value here; its parsing, the message texts and running out of memory are not modelled.
- PackageGraph.Fetch: the source answers once per ID for the whole load; a source that changes its answers meanwhile is not modelled.
- PackageLinks.LinkPrefab: of a binding's actions only their sounds are modelled, held by the binding; where the actions lie in the prefab's array is the parser's.
- PackageLinks.LoadSet: that a library offers exactly what it holds, and draws only with slots it has, is what reading its file has checked.
- JsonStrings.StringInto: the buffer holds at least one byte, as every caller's does.
- PackageAssets.TakeAssets: pixels, clips and meshes are handles; freeing and borrowing of memory and running out of it are not modelled.
- JsonReader.Reader.Num: whether strtod takes a token whole and finite is a parameter.
- JsonWriter.Writer.Put: the text snprintf gives for a number is a parameter, and strings are characters, so UTF-8 is not checked (nor is it by the source).
- SaveCodec.Encode: the directory, the path and the write are not modelled there; a save's rename is atomic and the store may fail.
- IdentityProtocol.CallersAgree: a file system of atomic create, write, link, rename and unlink steps; crashes are leftovers a run may start with, and durability (fsync) is not modelled.
- Fingerprint.ContentFingerprint: floats are bit patterns, and a null roster with a non-zero count is not modelled.
- AnimGraph.World: transforms are values under an arbitrary operation; the quaternion arithmetic is not modelled.
- AnimSampling.ComponentsInsideBlocks: holds when the file offsets do not wrap 32 bits; the loader does not rule that out, and InsideBlockExactlyWhen says what happens otherwise.
- AnimSampling.SampleFrame: gives where each component is read, not the floats made of it; blending between frames is not modelled.
- Adpcm.Decode: the caller's buffer holds the frames it says it does.
- ServerConfig.Server.Apply: whether a text is a dotted address (sscanf) is a parameter; warnings and message texts are not modelled.
- Shop.Survival.Request: health, mana and power are real numbers and the mana limit a function of the profile; refreshing the carried weapons after a success is not modelled.
- AssetPayload.Pending.Bind: descriptors and members are taken as parsed; the canonical order is the parser's check.
- Field-by-field parsing of manifests, descriptors, prefabs and packages: it would add many easy members.
- Floating-point physics, rendering, the network, Lua, frame-time histograms and the remaining session code.
- Joining, leaving and the waves of a survival game, and choosing the address to bind.
