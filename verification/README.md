# Proofs about the UPnP stack and its foundations

This project models the parts of the repository whose correctness tests cannot settle, and
proves what they are for. It is written for Dafny 4.11; `dafny verify dfyconfig.toml` checks all
of it. Each `.dfy` file models one component:

| file | component |
|---|---|
| `xml_role.dfy` | the prolog role machine of expat: one method per handler, against a transition table |
| `content_models.dfy` | the language of element content models that its element handlers accept |
| `decl_texts.dfy`, `declarations.dfy` | the texts of markup declarations with their roles, and that its other handlers accept exactly these |
| `prologs.dfy` | the same for whole prologs and external subsets |
| `prolog_runs.dfy`, `prolog_play.dfy` | what every run of the role machine keeps; the object run on tokens |
| `md5_block.dfy`, `md5.dfy`, `md5_known.dfy` | MD5: the block transform and the streaming object, against RFC 1321; one of its published digests |
| `blocking_queue.dfy`, `worker.dfy` | the semaphore queue and the worker thread under every interleaving |
| `wrappers.dfy`, `words.dfy` | values that may be absent, answers, machine integers |
| `tiny_list.dfy` | the doubly linked list on the heap |
| `map_items.dfy`, `tiny_map.dfy` | the ordered map over it |
| `provider.dfy`, `registry.dfy` | device provider with observers; table of discovered objects |
| `xml_tree.dfy` | the tree that parser events build |
| `uuid_clock.dfy`, `uuid_text.dfy` | the clock of time-based UUIDs; their bytes and text |
| `gennmtab.dfy` | the generator of the two-level name character tables |
| `timer.dfy` | the drift correction of the endless timer |
| `http_text.dfy`, `http_header.dfy`, `http_content.dfy`, `http_message.dfy` | HTTP messages: scanning loops, header fields, body buffer, first lines, parser and printer |
| `http_round_trip.dfy`, `http_heads.dfy`, `http_receive.dfy` | what printing and parsing keep; complete heads; the receive loop |
| `ssdp.dfy` | discovery messages on top of HTTP messages |

Code that changes state is modelled as classes and methods with loops; each method is proved
against a function that says what it does, and the main results are lemmas about these
functions, over all inputs or all runs. Runs are sequences of operations or steps of any length;
where a component is an object, a method gives it such a sequence and promises what the lemmas say.

Where the code departs from what it seems meant to do, the model follows the code, and a lemma
says exactly when it matters:

- `level` and `includeLevel` are 32-bit counters: content models are recognised exactly up to
  2^32 nested groups (`ContentModels.ContentModelsExactly`). As the file says, `,` and `|` may be
  mixed in a group, and the grammar allows it. Names of attributes and elements may repeat, and
  white space is not asked for where XML 1.0 asks for it; both are left to other parts of expat.
- The map tells nobody of values that are removed before its listener is set
  (`Maps.DeliveredExactly`).
- `RemoveAt` and `SetAt` of the list answer POSITION_INVALID even when they succeed, and
  `InsertAfter` past the end counts a node that it never links.
- `Clear` of the provider leaves handlers behind and tells nobody (`Provider.ClearLeavesHandlers`,
  `Provider.ClearTellsNobody`, `Provider.ReAddAfterClear`, `Provider.RemoveAfterReAdd`,
  `Provider.HandlersLeft`).
- A USN of 128 characters has no terminator in its field; unless a zero stands behind it, each of its
  alive messages is announced (`Registry.FoundAgainExactly`, `Registry.AnnouncedAgain`). A tag or
  attribute field of 128 characters has none either; what the model calls the field are the 128
  characters.
- A job is lost exactly when `Stop` clears the listener at one particular moment
  (`Worker.LossExactly`), and a `Poll` can make a later `Take` return NULL
  (`BlockingQueue.NullTakeExactly`). A stop whose thread had ended before does so too: the next thread
  ends so when left alone, and the worker runs without one (`Worker.NullEndsExactly`, `Worker.RestartedEndsByNull`).
- The reason of an HTTP response reads back empty (`HttpRoundTrip.ReasonLost`), a method of 32
  characters fills its field and runs on into the URI (`HttpRoundTrip.ReadsBackExactly`), and a
  body longer than announced is dropped as a whole (`HttpReceive.TooMuchIsDropped`).
- A printed byebye is rejected by its own parser, and a search response prints nothing. The readers
  of alive and byebye test `nt` again where they mean `nts`, which has no effect (`Ssdp.NtsIsThere`).
- A UUID buffer may have a 37th digit; readings of the clock at the epoch itself repeat timestamps.
- The name tables are right exactly when no more than 254 pages need a bitmap of their own, since an
  entry is one byte (`NameTables.DecodesExactly`, `NameTables.TooManyPages`).
- The endless timer makes up for overruns and for the time of its listener. But the time between its
  clock readings adds up, and so does a correction that is carried over a wait that ends on time or
  early: it is applied a second time (`Timer.WakeUps`, `Timer.NeverEarly`, `Timer.DriftsEarly`).
- A call of MD5's `Update` whose length and the bytes waiting add up to 2^32 never ends
  (`Md5.LoopEndsExactly`).

MD5 words have four bytes, as the comment on `UINT4` says; `unsigned long` may have eight. They are
bit-vectors where their bits are worked on, and numbers where they count. The
checks `RETURN_IF_FAIL` are empty outside debug builds, so pointers are not null by precondition.

## Model

| member | source | states |
|---|---|---|
| ContentModels.AcceptsEverySpec | src/3rdpart_src/expat/lib/xmlrole.c:1002-1212 | every content specification (any tree of non-empty groups with quantifiers and any mix of `,` and `\|`, or the `#PCDATA` form) that nests at most 2^32 groups runs from element1 to declClose and reports its own roles; level is then 0 after a list of children, 1 after the `#PCDATA` form, and as before after EMPTY and ANY |
| ContentModels.SpecOfEveryRun | src/3rdpart_src/expat/lib/xmlrole.c:1002-1212 | conversely every run from element1 to declClose within that depth is, spaces dropped, the text of a specification |
| ContentModels.SpecTokensInjective | src/3rdpart_src/expat/lib/xmlrole.c:1002-1212 | no two specifications have the same text, so the one of a run is unique |
| ContentModels.ContentModelsExactly | src/3rdpart_src/expat/lib/xmlrole.c:1032-1212 | a specification is accepted if and only if it nests at most 2^32 groups, and an accepted run is the text of one if and only if it does |
| ContentModels.TooDeepIsNoSpec | src/3rdpart_src/expat/lib/xmlrole.c:1136-1212 | a run that nests deeper and still ends (the counter wrapped) is the text of no specification |
| ContentModels.BlanksDoNotMatter | src/3rdpart_src/expat/lib/xmlrole.c:1002-1212 | a token string is accepted exactly when it is without its spaces and does not end in one, and it leads to the same state |
| ContentModels.StopsTooEarly | src/3rdpart_src/expat/lib/xmlrole.c:1136-1212 | with more than 2^32 groups open the counter reaches 0 only with at least 2^32 of them still open |
| Declarations.DeclarationsExactly | src/3rdpart_src/expat/lib/xmlrole.c:216-1292 | from the first handler of its kind on, the handlers accept exactly the texts of entity, notation, attribute-list, element and document type declarations (productions 28, 45, 52 to 60, 70 to 76, 82 and 83 of XML 1.0), blanks aside; an element declaration as long as it nests at most 2^32 groups |
| Declarations.DeclarationAccepted | src/3rdpart_src/expat/lib/xmlrole.c:216-1292 | each such declaration, with blanks anywhere before its tokens, is accepted, answered with the roles written beside its tokens (the literal after SYSTEM is the system identifier, the first after PUBLIC the public one, each attribute type and default its own role), and leads back to the subset it stands in, or behind or into the document type |
| Declarations.DeclarationRead | src/3rdpart_src/expat/lib/xmlrole.c:216-1292 | and whatever is accepted is such a declaration, answered with its roles |
| Prologs.DocumentsExactly | src/3rdpart_src/expat/lib/xmlrole.c:127-1334 | from XmlPrologStateInit on, the token strings that lead to the root element without an error are exactly the prologs of XML 1.0 (productions 22, 27 and 28, with any sequence of declarations, instructions, comments and parameter entity references as internal subset), white space anywhere but before the XML declaration, and byte order marks let pass before the document type, as long as no element declaration nests more than 2^32 groups |
| Prologs.DocumentRead | src/3rdpart_src/expat/lib/xmlrole.c:127-1334 | and each token of such a prolog is answered with the role written beside it |
| Prologs.DocumentAccepted | src/3rdpart_src/expat/lib/xmlrole.c:127-1334 | every prolog without an XML declaration is accepted, with its roles |
| Prologs.DeclaredDocumentAccepted | src/3rdpart_src/expat/lib/xmlrole.c:127-1334 | every prolog with one is accepted, with its roles |
| Prologs.SubsetRead | src/3rdpart_src/expat/lib/xmlrole.c:393-1334 | what goes through an external subset without an error is a sequence of declarations, other items and conditional sections, answered with their roles; only an open INCLUDE section is closed, the text ends only outside of one, and includeLevel is the number left open (mod 2^32) |
| Prologs.SubsetItems | src/3rdpart_src/expat/lib/xmlrole.c:393-1334 | and every such sequence goes through, with its roles |
| PrologPlay.PlayDeclaration | src/3rdpart_src/expat/lib/xmlparse.c:3798-3845 | an object at the first handler of a declaration, given tokens until it ends: it accepts exactly the texts of declarations of that kind, and its answers are their roles |
| PrologPlay.PlayProlog | src/3rdpart_src/expat/lib/xmlparse.c:3798-3845 | an object set up for a document entity, given any tokens: it accepts exactly the prologs of XML 1.0 up to the root element, and its answers are their roles |
| PrologRuns.RunAgrees | src/3rdpart_src/expat/lib/xmlrole.c:437-1292 | after any run from an initial state the handler, role_none and level agree with the declaration that is open and the groups open in it |
| PrologRuns.LevelCountsGroups | src/3rdpart_src/expat/lib/xmlrole.c:1032-1212 | in every run level is the number of open groups (mod 2^32), and at least 1 from element2 on while fewer than 2^32 are open |
| PrologRuns.RoleNoneIsSet | src/3rdpart_src/expat/lib/xmlrole.c:1277-1292 | whenever declClose is reached, role_none is the none-role of the declaration kind that is open |
| PrologRuns.IncludeLevel | src/3rdpart_src/expat/lib/xmlrole.c:405-433 | in an external entity includeLevel is the number of open INCLUDE sections (mod 2^32), which never drops below zero |
| PrologRuns.OneDoctypeAroundAllDeclarations | src/3rdpart_src/expat/lib/xmlrole.c:127-388 | a document-entity run has at most one doctype name, and every declaration and parameter entity reference stands after its opening and before its closing bracket |
| PrologRuns.NothingAfterTheEnd | src/3rdpart_src/expat/lib/xmlrole.c:1294-1313 | nothing but ROLE_NONE is returned after an error or the start of the instance |
| PrologPlay.PlayContent | src/3rdpart_src/expat/lib/xmlrole.c:1002-1212 | an object in element1 that is given tokens while its handlers last: with at most 2^32 groups nested it accepts exactly the texts of specifications, blanks aside; a deeper text that it accepts is of none |
| PrologPlay.PlayDocument | src/3rdpart_src/expat/lib/xmlparse.c:3798-3845 | an object set up for a document entity and given any tokens one by one: the roles it returns and the state it is left in have all the properties of runs above |
| PrologPlay.PlayEntity | src/3rdpart_src/expat/lib/xmlparse.c:3798-3845 | the same for an external entity, with includeLevel |
| PrologPlay.Play | src/3rdpart_src/expat/lib/xmlparse.c:3798-3845 | from any state, the object ends in the state and returns the roles of the run over the transition table |
| Md5Block.Transform | src/Tiny/Md5/tiny_md5.c:191-278 | Transform computes the compression function of section 3.4 of RFC 1321, given as 64 operations with its own table |
| Md5Block.FBit | src/Tiny/Md5/tiny_md5.c:73-73 | each bit of F(x, y, z) is that of y where x has the bit and that of z where it has not |
| Md5Block.GBit | src/Tiny/Md5/tiny_md5.c:74-74 | each bit of G(x, y, z) is that of x where z has the bit and that of y where it has not |
| Md5Block.HBit | src/Tiny/Md5/tiny_md5.c:75-75 | each bit of H(x, y, z) is set where an odd number of the three are |
| Md5Block.IBit | src/Tiny/Md5/tiny_md5.c:76-76 | each bit of I(x, y, z) is that of y, turned over where x has the bit or z has not |
| Md5Block.RotateBit | src/Tiny/Md5/tiny_md5.c:81-81 | each bit of a rotated word is the one that many places below, counted round |
| Md5Known.DigestOfAbc | src/Tiny/Md5/tiny_md5.c:47-278 | the digest of "abc" that appendix A.5 of RFC 1321 lists, which fixes the constants, shifts, initial registers, padding and byte order |
| Md5Known.PrintedAbc | src/Tiny/Md5/tiny_md5.c:338-363 | and its hexadecimal text |
| Md5Block.DecodeEncode | src/Tiny/Md5/tiny_md5.c:283-310 | decoding encoded words gives the words |
| Md5Block.EncodeDecode | src/Tiny/Md5/tiny_md5.c:283-310 | encoding decoded bytes gives the bytes, for every multiple of four |
| Md5.DigestOfChunks | src/Tiny/Md5/tiny_md5.c:115-186 | however a message is cut into calls of Update that end, Final returns the digest of sections 3.1 to 3.4 of RFC 1321 |
| Md5.LoopEndsExactly | src/Tiny/Md5/tiny_md5.c:141-144 | the loop of Update ends if and only if the bytes waiting in the buffer and the length of the input add up to less than 2^32; else its 32-bit index comes round for ever |
| Md5.TinyMd5.Update | src/Tiny/Md5/tiny_md5.c:115-155 | every call whose loop ends: the state is the fold over all full blocks, the buffer begins with the tail, the count words hold 8 times the length mod 2^64; the message grows by the input |
| Md5.TinyMd5.Final | src/Tiny/Md5/tiny_md5.c:161-186 | writes the digest of the whole message and clears the object |
| Md5.CountAdds | src/Tiny/Md5/tiny_md5.c:124-130 | the two-word bit count with its carry is 64-bit addition of 8 times the length |
| BlockingQueue.Balance | src/Tiny/Worker/TinyBlockingQueue.c:104-163 | in every run: first in, first out; queue length plus stops plus polled jobs equals the semaphore plus pushes not posted plus takers past the wait plus NULL takes |
| BlockingQueue.NoNullBeforeStop | src/Tiny/Worker/TinyBlockingQueue.c:118-140 | without Poll, Take never returns NULL before a Stop |
| BlockingQueue.NullTakeExactly | src/Tiny/Worker/TinyBlockingQueue.c:118-163 | without another Poll or Stop a NULL take can come if and only if there were fewer than stops and polled jobs |
| BlockingQueue.NullTakeReachable | src/Tiny/Worker/TinyBlockingQueue.c:118-163 | as long as fewer NULL takes were made than stops and polled jobs, posts, waits and takes alone make one more |
| BlockingQueue.PollMakesNullReachable | src/Tiny/Worker/TinyBlockingQueue.c:142-156 | one Poll of a queued job makes a later NULL take reachable |
| BlockingQueue.Interleave | src/Tiny/Worker/TinyBlockingQueue.c:104-163 | on an object, any interleaving of the steps of any threads: what takes and polls return, then what is queued, are the jobs put in their order, and NULL takes are no more than stops and polled jobs |
| Worker.NoJobVanishes | src/Tiny/Worker/TinyWorker.c:91-253 | under every interleaving each job put is, exactly once, queued, held by the thread, handled, deleted, polled or lost, and nothing else is |
| Worker.DisposedAccounts | src/Tiny/Worker/TinyWorker.c:91-122 | after Dispose each job put was, exactly once, handled, deleted, polled or lost, or is still queued; only jobs put after its last poll are queued |
| Worker.RunKeeps | src/Tiny/Worker/TinyWorker.c:91-253 | in every run handled jobs keep put order, and jobs, control and queue stay conserved |
| Worker.HandledExactly | src/Tiny/Worker/TinyWorker.c:173-253 | a step hands a job to the listener if and only if it is the listener test of a job since whose is_running test Stop has not cleared the listener |
| Worker.DeletedExactly | src/Tiny/Worker/TinyWorker.c:91-253 | a step deletes a job if and only if it is a poll of Dispose that finds one, or the is_running test of one after Stop or Dispose and no Start since |
| Worker.LeftAloneHandles | src/Tiny/Worker/TinyWorker.c:208-253 | a working thread that is left alone, but for posts of jobs already put, comes to rest after a bounded number of steps and has then handled, in order, the job in its hands and those queued, and nothing else; it waits for more if and only if there were no more stops and polled jobs than threads that ended by a NULL Take |
| Worker.ComesToRest | src/Tiny/Worker/TinyWorker.c:208-253 | it does come to rest |
| Worker.OneLossPerStart | src/Tiny/Worker/TinyWorker.c:139-253 | at most one job is lost for each start of the thread |
| Worker.LossExactly | src/Tiny/Worker/TinyWorker.c:173-253 | a step loses a job if and only if it is the listener test of a job since whose is_running test Stop has cleared the listener |
| Worker.LostOnlyToStop | src/Tiny/Worker/TinyWorker.c:173-253 | a job is lost only when Stop clears the listener between the is_running test and the listener test |
| Worker.LossHappens | src/Tiny/Worker/TinyWorker.c:173-253 | a run in which such a loss happens |
| Worker.StopTerminates | src/Tiny/Worker/TinyWorker.c:173-190 | in every run from where Stop waits for the thread, whatever the others do: the thread can go on or Stop can, and after at most three steps of the thread Stop can |
| Worker.NullEndsExactly | src/Tiny/Worker/TinyWorker.c:124-253 | a thread at work that is left alone ends by a Take that returns NULL if and only if there have been more stops and polled jobs than threads that ended so before; and in no run does such a Take come without another stop or poll unless there have been more |
| Worker.TokensBalance | src/Tiny/Worker/TinyWorker.c:91-253 | in every run queued jobs, stops and polled jobs are as many as the tokens of the semaphore, on their way to it and taken from it, and the threads that ended by a NULL Take |
| Worker.RestartedEndsByNull | src/Tiny/Worker/TinyWorker.c:139-190 | a worker whose thread ended by itself, stopped and started again, gets a thread that ends so when left alone: the worker runs without one |
| Maps.MapRefinement | src/Tiny/Container/TinyMap.c:154-221 | after any run keys are distinct, the items stand for the abstract finite map, and each lookup agrees with it over the first 256 characters of the key |
| Maps.InsertionOrder | src/Tiny/Container/TinyMap.c:171-221 | the items stand in the order of the insertions they stem from, and none was erased or cleared since |
| Maps.DeliveredOnce | src/Tiny/Container/TinyMap.c:199-257 | in every run each value inserted with success was delivered to the delete listener, is in the map, or was removed while no listener was set, as often as it was inserted |
| Maps.DeliveredExactly | src/Tiny/Container/TinyMap.c:199-257 | listener and map account for every value inserted, as multisets, if and only if nothing was removed before the listener was set |
| Maps.DeliveredAll | src/Tiny/Container/TinyMap.c:95-102 | after Clear or Dispose every value was delivered exactly as often as it was inserted with success, under the same condition and no weaker one |
| Maps.Serve | src/Tiny/Container/TinyMap.c:73-257 | on the map object over its linked list, any sequence of operations: contents and order are as in the results above, and listener and map account for every value if and only if nothing was removed before the listener was set |
| Provider.DevicesHaveHandlers | src/UpnpStack/UpnpProvider/UpnpProvider.c:283-416 | in every run without Clear devices and handlers have the same keys, in the same order |
| Provider.ObserversKnowTheDevices | src/UpnpStack/UpnpProvider/UpnpProvider.c:167-416 | in every run without Clear, arrivals minus departures told to an observer with both callbacks are 1 for exactly the current devices while it is registered, and 0 otherwise and afterwards |
| Provider.HeardExactly | src/UpnpStack/UpnpProvider/UpnpProvider.c:167-416 | at each step of a run without Clear an observer with the one callback hears once of each device that has come while it is registered or was there when it was registered, one with the other callback once of each that leaves or is left, and nobody hears anything else |
| Provider.ClearLeavesHandlers | src/UpnpStack/UpnpProvider/UpnpProvider.c:270-273 | after Clear the two maps still agree if and only if there was no device |
| Provider.ClearTellsNobody | src/UpnpStack/UpnpProvider/UpnpProvider.c:270-273 | after Clear what observers were told is still right if and only if there was no device or no observer with both callbacks |
| Provider.ReAddAfterClear | src/UpnpStack/UpnpProvider/UpnpProvider.c:283-356 | adding a cleared identifier again returns ITEM_EXIST with the device inserted and nobody told; another identifier is added as usual |
| Provider.RemoveAfterReAdd | src/UpnpStack/UpnpProvider/UpnpProvider.c:283-416 | when that device is removed, an observer that was there all along has been told of as many arrivals as departures if it is the device cleared away, and of one departure too many if it is another one |
| Provider.HandlersLeft | src/UpnpStack/UpnpProvider/UpnpProvider.c:167-416 | in every run, Clear included, the identifiers of devices are those added and neither removed nor cleared away since, and those of handlers are these and the ones cleared away, until such a device is added again and removed |
| Provider.AddedExactly | src/UpnpStack/UpnpProvider/UpnpProvider.c:283-356 | in every run a device can be added if and only if its identifier is neither that of a device nor one left behind |
| Provider.EveryDeviceHasAHandler | src/UpnpStack/UpnpProvider/UpnpProvider.c:167-416 | in every run every identifier of a device has a handler, and there are no other handlers if and only if every identifier left behind is again that of a device |
| Provider.Serve | src/UpnpStack/UpnpProvider/UpnpProvider.c:167-416 | the object, given any sequence of calls, ends with these devices and handlers, and without Clear keeps the invariants of runs above |
| Registry.CallsAlternate | src/UpnpStack/UpnpRegistry/UpnpRegistry.c:191-328 | in every run whose objects have the USNs of their messages the calls about a USN alternate alive and gone, beginning with alive; the table holds exactly the USNs whose last call was alive, which are those whose last accepted message was no byebye |
| Registry.FoundAgainExactly | src/UpnpStack/UpnpRegistry/UpnpRegistry.c:257-295 | an object made for a USN is found again under it if and only if the USN has fewer than 128 characters or a zero stands behind its field |
| Registry.AnnouncedAgain | src/UpnpStack/UpnpRegistry/UpnpRegistry.c:257-295 | with 128 characters and no zero behind them every alive message of the same device is announced |
| Registry.Serve | src/UpnpStack/UpnpRegistry/UpnpRegistry.c:191-478 | the object, given any sequence of messages, ends in the state of the run, with such calls and such a table when the USNs fit |
| XmlTree.TreeRebuilt | src/Tiny/Xml/TinyXml.c:164-283 | the events of any element tree build that tree and nothing else: names and attributes cut to their fields of 128 characters, child order, parent, depth one more than the parent, text; the root is current at the end |
| XmlTree.KeptExactly | src/Tiny/Xml/TinyXml.c:195-224 | tags and attributes of a tree are found in its nodes as they were written if and only if each name has at most one colon, not in front, and no part of a name, no attribute name and no value is longer than 128 characters |
| XmlTree.NameComesBack | src/Tiny/Xml/TinyXml.c:195-211 | the same for one tag name |
| XmlTree.Parse | src/Tiny/Xml/TinyXml.c:105-148 | an object called with the events of a document one by one then holds its tree, as written if and only if all of it fits; one that has parsed before refuses and stays as it is |
| XmlTree.Replay | src/Tiny/Xml/TinyXml.c:164-283 | from any state the events of a tree append its nodes below the current one and leave that one current |
| XmlTree.ChunksDoNotMatter | src/Tiny/Xml/TinyXml.c:255-283 | two event sequences that cut the same text runs differently build equal states |
| XmlTree.RunAdds | src/Tiny/Xml/TinyXmlNode.c:217-270 | a text run adds itself, without its leading white space, however it is cut into chunks |
| XmlTree.StripIs | src/Tiny/Xml/TinyXml.c:262-275 | what is skipped of a text run is blanks, tabs and ends of lines (codes 9, 10, 13 and 32) only, and all of them up to another character |
| XmlTree.NameParts | src/Tiny/Xml/TinyXml.c:195-211 | a name without a colon has no prefix; a name with colons is cut at the first, and a third part is dropped |
| UuidClock.TimestampsAscend | src/Tiny/Uuid/TinyUuid.c:622-648 | without a step back of the clock, and with no stamp taken at the epoch before, timestamps do not decrease; two are equal exactly when the first used adjustment 10 and the second is the next one, in the next microsecond with adjustment 0 |
| UuidClock.OffsetIs | src/Tiny/Uuid/TinyUuid.c:648-648 | the offset is the time from 15 October 1582 to 1 January 1970, counted day by day with the leap years of the Gregorian calendar |
| UuidClock.NoThreeEqual | src/Tiny/Uuid/TinyUuid.c:622-648 | no three such timestamps are equal |
| UuidClock.SequenceCountsSteps | src/Tiny/Uuid/TinyUuid.c:624-631 | with no stamp taken at the epoch between, each step back of the clock, and nothing else, moves clock_seq by one mod 2^14 |
| UuidClock.EpochRepeats | src/Tiny/Uuid/TinyUuid.c:614-620 | after a stamp at the epoch the clock is set up anew: three readings there give three equal timestamps |
| UuidClock.Generate | src/Tiny/Uuid/TinyUuid.c:553-682 | the object, called for any clock readings, gives such stamps |
| UuidText.ByteIsPair | src/Tiny/Uuid/TinyUuid.c:268-356 | byte i of a parsed text is its ith pair of hexadecimal digits, hyphens aside |
| UuidText.PackingInverse | src/Tiny/Uuid/TinyUuid.c:326-382 | packing and unpacking are mutual inverses |
| UuidText.ParseOfPrint | src/Tiny/Uuid/TinyUuid.c:268-404 | a UUID printed in either case parses to the same 16 bytes |
| UuidText.PrintOfParse | src/Tiny/Uuid/TinyUuid.c:268-404 | what is printed after parsing a valid text is that text in the case asked for |
| UuidText.SameUuid | src/Tiny/Uuid/TinyUuid.c:268-404 | two valid texts name one UUID exactly when they differ in case only |
| NameTables.Generate | src/3rdpart_src/expat/gennmtab/gennmtab.c:419-429 | for all range lists over 16-bit codes both tables decode to membership in the ranges at every code if and only if at most 254 pages are neither uniform nor shared |
| NameTables.DecodesExactly | src/3rdpart_src/expat/gennmtab/gennmtab.c:371-417 | the emitted index and bitmaps decode to the flags at every code if and only if at most 254 pages are neither uniform nor equal to the same page of the first table |
| NameTables.BitmapCount | src/3rdpart_src/expat/gennmtab/gennmtab.c:379-409 | two bitmaps, and one more for each such page |
| NameTables.TooManyPages | src/3rdpart_src/expat/gennmtab/gennmtab.c:371-417 | an input for which it fails: one code in each page of the first table makes 256 of them, and some lookup is wrong |
| NameTables.EveryPageStored | src/3rdpart_src/expat/gennmtab/gennmtab.c:384-407 | each page is stored in the bitmap its entry names; exactly the uniform pages have entries 0 and 1; an equal page of the second table shares the entry |
| NameTables.NameHoldsNameStart | src/3rdpart_src/expat/gennmtab/gennmtab.c:423-426 | with at most 254 such pages the decoded name table contains the decoded name-start table |
| Timer.WaitsBounded | src/Tiny/Timer/TinyTimer.c:210-271 | whatever the readings and the listener do, every wait is from half the interval to all of it, and the carried correction is not negative |
| Timer.WakeUps | src/Tiny/Timer/TinyTimer.c:235-269 | on a clock that does not wrap, whatever the waits and the listener take: wake-up k comes k intervals after the first, but for its overrun, later by the time between the clock readings and by what no wait could make up for, and earlier by the corrections of waits that did not overrun; all three add up |
| Timer.NeverEarly | src/Tiny/Timer/TinyTimer.c:235-251 | those corrections are never negative, and none if and only if each wait overran, or ended on time with no correction carried from before |
| Timer.NeverLate | src/Tiny/Timer/TinyTimer.c:252-269 | what no wait could make up for is none if and only if each correction fits into half the interval, and together with the time of the listener into the other half |
| Timer.DriftIsGaps | src/Tiny/Timer/TinyTimer.c:235-269 | when everything fits, only the time between the readings adds up if and only if no wait ended early, nor on time with a correction carried |
| Timer.DriftsEarly | src/Tiny/Timer/TinyTimer.c:238-247 | an input for which more adds up: after one overrun, waits that end on time make each later wake-up earlier by as much again |
| Timer.EarlyRun | src/Tiny/Timer/TinyTimer.c:238-247 | such a run: interval 100, the first wait takes 110 and the others the 90 they should |
| Timer.InterruptsAreGaps | src/Tiny/Timer/TinyTimer.c:222-233 | interrupted waits change nothing: their time is time between the readings |
| Timer.NextWait | src/Tiny/Timer/TinyTimer.c:235-269 | the next wait makes up for the overrun, or for the carried one, and for the time of the listener, as far as it can be shortened |
| HttpRoundTrip.RequestRoundTrip | src/Tiny/Http/HttpMessage.c:165-337 | printing and parsing a request of at least 14 characters, whose method has a terminator, gives back method, URI, version, header sequence and body (sections 4.2 and 5.1 of RFC 2616) |
| HttpRoundTrip.ReadsBackExactly | src/Tiny/Http/HttpMessage.c:165-337 | a request that is stored, with a method of up to 32 characters, reads back if and only if its method has fewer and its text is not shorter than 14 |
| HttpRoundTrip.FullMethod | src/Tiny/Http/HttpMessage.c:474-474 | a method of 32 characters has no terminator and is printed with the URI run on to it: no such first line is accepted |
| HttpRoundTrip.ResponseRoundTrip | src/Tiny/Http/HttpMessage.c:165-337 | printing and parsing a response gives back version, code, header sequence and body, and an empty reason unless there is no protocol identifier |
| HttpRoundTrip.ReasonLost | src/Tiny/Http/HttpMessage.c:727-733 | the reason reads back as it was printed only without a protocol identifier; else as empty |
| HttpRoundTrip.NotBoth | src/Tiny/Http/HttpMessage.c:646-867 | no input is accepted by both first-line loaders |
| HttpRoundTrip.RequestParsed | src/Tiny/Http/HttpMessage.c:165-236 | the printed head of a request followed by any bytes: the fields of the request, and the bytes as far as the announced length has room |
| HttpRoundTrip.ResponseParsed | src/Tiny/Http/HttpMessage.c:165-236 | the same for a response |
| HttpHeads.HeadParsed | src/Tiny/Http/HttpMessage.c:165-236 | any head that the loaders and the header parser accept to its end is read the same whatever follows it, and what follows is the body |
| HttpHeads.PrintedRequestHead | src/Tiny/Http/HttpMessage.c:238-337 | what is printed for a well-formed request is such a head, with its fields and headers |
| HttpHeads.PrintedResponseHead | src/Tiny/Http/HttpMessage.c:238-337 | the same for a response, the reason behind as many terminators as the identifier is long |
| HttpReceive.HeadReassembled | src/UpnpStack/UpnpHttp/UpnpHttpServer.c:341-388 | for any such head and every cut of a body of the announced length into non-empty pieces, the first with the whole head, the receive loop ends with the fields of the head and that body; over the limit of 8 MB it is refused |
| HttpReceive.RequestReassembled | src/UpnpStack/UpnpHttp/UpnpHttpServer.c:341-388 | so for a printed request it ends with the request |
| HttpReceive.ResponseReassembled | src/UpnpStack/UpnpHttp/UpnpHttpServer.c:341-388 | and for a printed response with the response without its reason |
| HttpReceive.CollectKeepsPrefix | src/UpnpStack/UpnpHttp/UpnpHttpServer.c:365-387 | at every turn the filled part is the concatenation so far and never longer than the buffer |
| HttpReceive.CollectFills | src/UpnpStack/UpnpHttp/UpnpHttpServer.c:365-387 | non-empty pieces that add up to what is missing are all taken and fill the body |
| HttpReceive.TooMuchIsDropped | src/Tiny/Http/HttpMessage.c:221-231 | after any complete head, more body than announced in the first piece is dropped as a whole, and the parse still succeeds |
| Ssdp.AliveSurvives | src/UpnpStack/UpnpRegistry/SsdpMessage.c:797-809 | an alive message with lines of at most 255 characters comes back from its printed form |
| Ssdp.SearchSurvives | src/UpnpStack/UpnpRegistry/SsdpMessage.c:821-830 | an M-SEARCH request comes back from its printed form |
| Ssdp.ByebyeRejected | src/UpnpStack/UpnpRegistry/SsdpMessage.c:811-819 | a printed byebye lacks its USN: its own parser rejects it |
| Ssdp.AnswerReceived | src/UpnpStack/UpnpRegistry/SsdpMessage.c:217-278 | a search response printed by HttpMessage, whatever its code and reason, is read as it was meant |
| Ssdp.FitsBuffer | src/UpnpStack/UpnpRegistry/SsdpMessage.c:782-845 | every message, whatever its fields, fits into the 2048 characters it is printed into |
| XmlRole.PrologState.Init | src/3rdpart_src/expat/lib/xmlrole.c:1315-1324 | the state a document entity starts in |
| XmlRole.PrologState.InitExternalEntity | src/3rdpart_src/expat/lib/xmlrole.c:1328-1334 | the state an external entity starts in |
| XmlRole.PrologState.SetTopLevel | src/3rdpart_src/expat/lib/xmlrole.c:92-96 | internalSubset in the document entity, externalSubset1 outside |
| XmlRole.PrologState.Common | src/3rdpart_src/expat/lib/xmlrole.c:1304-1313 | a parameter entity reference outside the document entity is an inner one, anything else an error for good |
| XmlRole.PrologState.AttributeType | src/3rdpart_src/expat/lib/xmlrole.c:801-817 | the search finds the role of each of the eight type keywords and of no other name |
| XmlRole.PrologState.LeaveGroup | src/3rdpart_src/expat/lib/xmlrole.c:1166-1212 | closing a group counts level down modulo 2^32 and at 0 goes to declClose |
| XmlRole.PrologState.TokenRole | src/3rdpart_src/expat/lib/xmlrole.c:127-1313 | the call through the handler pointer, for every handler from prolog0 to declClose and every token: the role returned, the next handler, level, includeLevel, role_none and documentEntity are those of one step of the transition table; each handler is a method of its own |
| PrologRuns.StepAgrees | src/3rdpart_src/expat/lib/xmlrole.c:437-1292 | every step keeps the agreement of handler, role_none and level with the open declaration and its groups |
| PrologRuns.StepCountsIncludes | src/3rdpart_src/expat/lib/xmlrole.c:405-433 | every step keeps includeLevel equal to the open INCLUDE sections |
| PrologRuns.DocumentStep | src/3rdpart_src/expat/lib/xmlrole.c:127-388 | every step of a document entity moves between the stages before, in and after the doctype as allowed |
| PrologRuns.DocumentReached | src/3rdpart_src/expat/lib/xmlrole.c:127-388 | what a run has returned so far fits the stage it is in |
| PrologRuns.StaysFailed | src/3rdpart_src/expat/lib/xmlrole.c:1294-1302 | the error handler is never left and returns ROLE_NONE |
| PrologRuns.FinalRole | src/3rdpart_src/expat/lib/xmlrole.c:127-214 | returning an error or the instance start always leads to the error handler |
| Declarations.BlankAnswer | src/3rdpart_src/expat/lib/xmlrole.c:216-1292 | white space inside a declaration, and in an external entity a parameter entity reference, changes nothing and is answered with the none-role of the declaration or as an inner reference |
| Declarations.ReadDef | src/3rdpart_src/expat/lib/xmlrole.c:473-655 | what follows the name of an entity is a value, an external identifier, or with a general entity one and its notation |
| Declarations.ReadNotation | src/3rdpart_src/expat/lib/xmlrole.c:673-751 | what follows the name of a notation is an external or a public identifier |
| Declarations.ReadDefs | src/3rdpart_src/expat/lib/xmlrole.c:770-982 | what follows the element name of an attribute list is a list of attribute definitions |
| Declarations.ReadDoctype | src/3rdpart_src/expat/lib/xmlrole.c:233-317 | what follows the name of a document type is an external identifier or none, and a bracket or the end |
| Prologs.ReadItems | src/3rdpart_src/expat/lib/xmlrole.c:335-433 | what goes through a subset is a sequence of its items, up to a closing bracket or the end |
| Prologs.ExternalStart | src/3rdpart_src/expat/lib/xmlrole.c:392-403 | externalSubset0 takes a text declaration, and with any other token is externalSubset1 |
| ContentModels.WalkSpec | src/3rdpart_src/expat/lib/xmlrole.c:1002-1212 | the handlers walk every specification through the states its nesting gives |
| ContentModels.ParseParticle | src/3rdpart_src/expat/lib/xmlrole.c:1136-1212 | every walk within element6 and element7 begins with the text of one particle |
| ContentModels.ParseBody | src/3rdpart_src/expat/lib/xmlrole.c:1136-1212 | and up to the end of its group with the text of one list of particles |
| ContentModels.ParseMixed | src/3rdpart_src/expat/lib/xmlrole.c:1072-1134 | every walk through element3 to element5 is the text of a list of names as section 3.2.2 of XML 1.0 has it |
| ContentModels.SpecNesting | src/3rdpart_src/expat/lib/xmlrole.c:1002-1212 | the deepest nesting of the text of a specification is its depth |
| Md5Block.Decode | src/Tiny/Md5/tiny_md5.c:299-310 | the sixteen words of a block, low byte first |
| Md5Block.Encode | src/Tiny/Md5/tiny_md5.c:283-294 | the bytes of the words, low byte first, and nothing behind them |
| Md5Block.FF | src/Tiny/Md5/tiny_md5.c:87-95 | one operation of round 1, with the word, shift and constant that its number gives, on the register written next |
| Md5Block.GG | src/Tiny/Md5/tiny_md5.c:87-95 | one operation of round 2, with the word, shift and constant that its number gives, on the register written next |
| Md5Block.HH | src/Tiny/Md5/tiny_md5.c:87-95 | one operation of round 3, with the word, shift and constant that its number gives, on the register written next |
| Md5Block.II | src/Tiny/Md5/tiny_md5.c:87-95 | one operation of round 4, with the word, shift and constant that its number gives, on the register written next |
| Md5Block.Round1A | src/Tiny/Md5/tiny_md5.c:198-205 | these eight statements of round 1 are operations 1 to 8 of RFC 1321 |
| Md5Block.Round1B | src/Tiny/Md5/tiny_md5.c:206-213 | these eight statements of round 1 are operations 9 to 16 of RFC 1321 |
| Md5Block.Round2A | src/Tiny/Md5/tiny_md5.c:216-223 | these eight statements of round 2 are operations 17 to 24 of RFC 1321 |
| Md5Block.Round2B | src/Tiny/Md5/tiny_md5.c:224-231 | these eight statements of round 2 are operations 25 to 32 of RFC 1321 |
| Md5Block.Round3A | src/Tiny/Md5/tiny_md5.c:234-241 | these eight statements of round 3 are operations 33 to 40 of RFC 1321 |
| Md5Block.Round3B | src/Tiny/Md5/tiny_md5.c:242-249 | these eight statements of round 3 are operations 41 to 48 of RFC 1321 |
| Md5Block.Round4A | src/Tiny/Md5/tiny_md5.c:252-259 | these eight statements of round 4 are operations 49 to 56 of RFC 1321 |
| Md5Block.Round4B | src/Tiny/Md5/tiny_md5.c:260-267 | these eight statements of round 4 are operations 57 to 64 of RFC 1321 |
| Md5.TinyMd5.Init | src/Tiny/Md5/tiny_md5.c:100-108 | the initial registers and no message |
| Md5.TinyMd5.Count | src/Tiny/Md5/tiny_md5.c:121-130 | the index into the buffer and the new bit count |
| Md5.TinyMd5.FirstBlock | src/Tiny/Md5/tiny_md5.c:136-139 | the buffer filled up by the input is the next block folded |
| Md5.TinyMd5.WholeBlocks | src/Tiny/Md5/tiny_md5.c:141-144 | the loop folds all blocks that are complete |
| Md5.TinyMd5.TakeBlocks | src/Tiny/Md5/tiny_md5.c:132-151 | all complete blocks are folded, and what is left begins in the buffer and ends with the input |
| Md5.TinyMd5.Pad | src/Tiny/Md5/tiny_md5.c:170-178 | the message is extended by the padding and the length, always to a block boundary |
| Md5.TinyMd5.Clear | src/Tiny/Md5/tiny_md5.c:183-185 | all registers, counts and buffer bytes are zero |
| Md5.TinyMd5Encode | src/Tiny/Md5/tiny_md5.c:338-363 | the digest of a C string in hexadecimal, its length cut to 32 bits |
| Md5.CountWords | src/Tiny/Md5/tiny_md5.c:167-168 | the encoded count words are the length bytes of section 3.2 of RFC 1321 |
| Md5.AddWords | src/Tiny/Md5/tiny_md5.c:124-130 | the addition on two 32-bit words is 64-bit addition |
| Md5.CountIndex | src/Tiny/Md5/tiny_md5.c:121-122 | the buffer index is the number of bytes behind the last full block |
| BlockingQueue.TinyBlockingQueue.PushJob | src/Tiny/Worker/TinyBlockingQueue.c:104-116 | a push appends to the queue and leaves a post to come |
| BlockingQueue.TinyBlockingQueue.PostJob | src/Tiny/Worker/TinyBlockingQueue.c:104-116 | the post adds one to the semaphore |
| BlockingQueue.TinyBlockingQueue.WaitForJob | src/Tiny/Worker/TinyBlockingQueue.c:118-140 | a wait that goes on takes one off the semaphore |
| BlockingQueue.TinyBlockingQueue.TakeJob | src/Tiny/Worker/TinyBlockingQueue.c:118-140 | a take returns the first job, or NULL from an empty queue |
| BlockingQueue.TinyBlockingQueue.PollJob | src/Tiny/Worker/TinyBlockingQueue.c:142-156 | a poll returns the first job without waiting, or NULL |
| BlockingQueue.TinyBlockingQueue.StopTaking | src/Tiny/Worker/TinyBlockingQueue.c:158-163 | Stop posts without a job |
| Worker.RestExactly | src/Tiny/Worker/TinyWorker.c:208-253 | a worker is at rest if and only if there is no post to make and no step for its thread |
| Worker.FlagIs | src/Tiny/Worker/TinyWorker.c:124-190 | is_running is set if and only if the controlling thread did a Start last, and no Stop or Dispose since |
| Worker.StepConserves | src/Tiny/Worker/TinyWorker.c:91-253 | every step keeps each job in exactly one place |
| Worker.StepInOrder | src/Tiny/Worker/TinyWorker.c:214-253 | every step keeps handled, held and queued jobs in the order they were put |
| Worker.StepControls | src/Tiny/Worker/TinyWorker.c:91-190 | every step keeps running, listener and thread consistent with where Start, Stop and Dispose are |
| Worker.PassedTest | src/Tiny/Worker/TinyWorker.c:226-240 | a thread past the is_running test got there at a moment when running was set |
| Containers.TinyList.AddHead | src/Tiny/Container/TinyList.c:205-241 | the datum is put before the sequence; prev and next stay mutually inverse, size counts |
| Containers.TinyList.AddTail | src/Tiny/Container/TinyList.c:243-286 | the datum is put behind the sequence |
| Containers.TinyList.RemoveAll | src/Tiny/Container/TinyList.c:288-320 | the sequence is empty and the listener was called once per datum, in order |
| Containers.TinyList.RemoveHead | src/Tiny/Container/TinyList.c:322-355 | the first datum is removed and delivered; an empty list stays |
| Containers.TinyList.RemoveTail | src/Tiny/Container/TinyList.c:357-396 | the last datum is removed and delivered |
| Containers.TinyList.GetHead | src/Tiny/Container/TinyList.c:159-177 | the first datum or none |
| Containers.TinyList.GetTail | src/Tiny/Container/TinyList.c:179-203 | the last datum or none |
| Containers.TinyList.GetTailPosition | src/Tiny/Container/TinyList.c:405-429 | the last position or -1 |
| Containers.TinyList.GetNext | src/Tiny/Container/TinyList.c:431-434 | the datum behind the position |
| Containers.TinyList.GetPrev | src/Tiny/Container/TinyList.c:436-439 | the datum before the position |
| Containers.TinyList.GetAt | src/Tiny/Container/TinyList.c:441-466 | the datum at the position or none |
| Containers.TinyList.RemoveAt | src/Tiny/Container/TinyList.c:468-516 | the datum at the position is removed and delivered once; the answer is POSITION_INVALID even then |
| Containers.TinyList.SetAt | src/Tiny/Container/TinyList.c:518-558 | the datum is replaced and the old one delivered; the answer is POSITION_INVALID even then |
| Containers.TinyList.InsertAfter | src/Tiny/Container/TinyList.c:560-602 | the datum is put behind the position; past the end of a list that is not empty size grows and nothing is linked |
| Containers.TinyList.InsertBefore | src/Tiny/Container/TinyList.c:604-612 | the datum is put before the position, by AddHead or InsertAfter |
| Containers.TinyList.Foreach | src/Tiny/Container/TinyList.c:122-148 | the first position at which the visitor stops, or -1 |
| Containers.TinyList.GetCount | src/Tiny/Container/TinyList.c:619-629 | the number of data plus the nodes that were never linked, mod 2^32 |
| Containers.TinyList.IsEmpty | src/Tiny/Container/TinyList.c:631-636 | whether there is no datum |
| Containers.TinyList.SetDeleteListener | src/Tiny/Container/TinyList.c:150-157 | the listener is set, the list unchanged |
| Containers.TinyList.NewNode | src/Tiny/Container/TinyList.c:643-656 | a node that is linked nowhere, counted in size |
| Containers.TinyList.DeleteNode | src/Tiny/Container/TinyList.c:658-667 | the listener hears the datum and size counts down |
| Containers.TinyList.Bypass | src/Tiny/Container/TinyList.c:484-500 | the neighbours of a node step over it, first included |
| Containers.TinyList.Splice | src/Tiny/Container/TinyList.c:586-592 | four pointers put a node behind another |
| Containers.TinyList.DeleteFrom | src/Tiny/Container/TinyList.c:304-312 | a chain taken off the list is deleted node by node |
| MapItems.SamePrefixIs | src/Tiny/Container/TinyMap.c:228-239 | strncmp over 256 characters is equality of the clipped keys |
| MapItems.IndexOfMeans | src/Tiny/Container/TinyMap.c:241-244 | the search finds the only item with the clipped key, or there is none |
| MapItems.FindIsLookup | src/Tiny/Container/TinyMap.c:154-169 | lookup is lookup in the finite map |
| MapItems.InsertKeeps | src/Tiny/Container/TinyMap.c:171-197 | insertion keeps keys distinct and adds to the map only a key that is not there |
| MapItems.EraseKeeps | src/Tiny/Container/TinyMap.c:199-214 | removal keeps keys distinct and takes exactly the key off the map |
| Maps.TinyMap.Insert | src/Tiny/Container/TinyMap.c:171-197 | appends the item or answers ITEM_EXIST |
| Maps.TinyMap.Erase | src/Tiny/Container/TinyMap.c:199-214 | removes the item and delivers its value, or answers NOT_FOUND |
| Maps.TinyMap.Clear | src/Tiny/Container/TinyMap.c:216-221 | removes all items and delivers their values |
| Maps.TinyMap.Dispose | src/Tiny/Container/TinyMap.c:95-102 | removes all items and delivers their values |
| Maps.TinyMap.GetValue | src/Tiny/Container/TinyMap.c:154-169 | the value under the key or none |
| Maps.TinyMap.GetValueAt | src/Tiny/Container/TinyMap.c:138-152 | the value at the index or none |
| Maps.TinyMap.GetCount | src/Tiny/Container/TinyMap.c:126-136 | the number of items mod 2^32 |
| Maps.TinyMap.FindKey | src/Tiny/Container/TinyMap.c:241-244 | the index of the key or -1 |
| Maps.TinyMap.SetDeleteListener | src/Tiny/Container/TinyMap.c:112-119 | the listener is set |
| Maps.TinyMap.constructor | src/Tiny/Container/TinyMap.c:73-93 | an empty map whose list reports deleted items |
| Maps.TinyMap.OnItemsDeleted | src/Tiny/Container/TinyMap.c:246-257 | the values of deleted items go to the listener if there is one |
| Maps.Perform | src/Tiny/Container/TinyMap.c:112-221 | any operation of the class is the step that the runs are made of |
| Maps.StepRefines | src/Tiny/Container/TinyMap.c:171-221 | each step on the items is the step on the abstract map |
| Maps.StepDelivers | src/Tiny/Container/TinyMap.c:171-257 | each step conserves: inserted, delivered, present and lost values balance |
| Provider.UpnpProvider.Add | src/UpnpStack/UpnpProvider/UpnpProvider.c:283-356 | inserts device and handler and tells every observer with the callback, in order; every error path with the state it leaves |
| Provider.UpnpProvider.Remove | src/UpnpStack/UpnpProvider/UpnpProvider.c:358-416 | tells the observers, then erases device and handler; NOT_FOUND else |
| Provider.UpnpProvider.AddObserver | src/UpnpStack/UpnpProvider/UpnpProvider.c:167-218 | registers the observer and tells it every device; ITEM_EXIST else |
| Provider.UpnpProvider.RemoveObserver | src/UpnpStack/UpnpProvider/UpnpProvider.c:220-256 | tells the observer of every device leaving, then erases it |
| Provider.UpnpProvider.Clear | src/UpnpStack/UpnpProvider/UpnpProvider.c:270-273 | drops the devices and nothing else |
| Provider.UpnpProvider.NotifyObservers | src/UpnpStack/UpnpProvider/UpnpProvider.c:332-342 | one call per observer that has the callback, in order |
| Provider.UpnpProvider.NotifyDevices | src/UpnpStack/UpnpProvider/UpnpProvider.c:207-214 | one call per device, in order |
| Provider.StepSound | src/UpnpStack/UpnpProvider/UpnpProvider.c:167-416 | every step, Clear included, keeps keys distinct, devices under their own identifiers and observers apart |
| Provider.StepKeys | src/UpnpStack/UpnpProvider/UpnpProvider.c:283-416 | every step but Clear keeps the keys of devices and handlers equal |
| Provider.StepTells | src/UpnpStack/UpnpProvider/UpnpProvider.c:167-416 | every step but Clear keeps what observers were told right |
| Provider.StepHeard | src/UpnpStack/UpnpProvider/UpnpProvider.c:167-416 | every step but Clear tells each observer exactly what has changed for it |
| Provider.EachHears | src/UpnpStack/UpnpProvider/UpnpProvider.c:283-416 | telling every observer of a device calls exactly the registered ones with the callback, once each |
| Provider.ToEachNet | src/UpnpStack/UpnpProvider/UpnpProvider.c:332-387 | telling every observer of a device changes the balance of exactly the registered ones with the callback |
| Provider.OfEachNet | src/UpnpStack/UpnpProvider/UpnpProvider.c:207-249 | telling an observer of every device changes its balance for exactly these devices |
| Provider.Perform | src/UpnpStack/UpnpProvider/UpnpProvider.c:167-416 | any call of the class is the step that the runs are made of |
| Registry.UpnpRegistry.OnAlive | src/UpnpStack/UpnpRegistry/UpnpRegistry.c:257-295 | a new valid object is put in the table and announced; a known one, or an invalid message, is not |
| Registry.UpnpRegistry.OnResponse | src/UpnpStack/UpnpRegistry/UpnpRegistry.c:440-478 | the same for a search response |
| Registry.UpnpRegistry.OnByebye | src/UpnpStack/UpnpRegistry/UpnpRegistry.c:297-328 | a known object is announced as gone and removed |
| Registry.UpnpRegistry.Discover | src/UpnpStack/UpnpRegistry/UpnpRegistry.c:191-219 | sets the listener, the table unchanged |
| Registry.UpnpRegistry.StopDiscovery | src/UpnpStack/UpnpRegistry/UpnpRegistry.c:221-228 | clears the listener, the table unchanged |
| Registry.UpnpRegistry.Create | src/UpnpStack/UpnpRegistry/UpnpObjectFactory.c:18-76 | an object exactly for a notification type that validates; its USN is that of the message, or with 128 characters or more its first 128 and what stands behind the field |
| Registry.FoundStep | src/UpnpStack/UpnpRegistry/UpnpRegistry.c:257-295 | an accepted alive or response adds exactly its USN and keeps the calls alternating |
| Registry.GoneStep | src/UpnpStack/UpnpRegistry/UpnpRegistry.c:297-328 | an accepted byebye removes exactly its USN and keeps the calls alternating |
| Registry.Handle | src/UpnpStack/UpnpRegistry/UpnpRegistry.c:191-478 | any event is the step that the runs are made of |
| XmlTree.TinyXml.OnStart | src/Tiny/Xml/TinyXml.c:164-238 | a new node with its names and attributes is linked below the current one and becomes current |
| XmlTree.TinyXml.OnEnd | src/Tiny/Xml/TinyXml.c:240-253 | the parent becomes current, and the root stays |
| XmlTree.TinyXml.OnData | src/Tiny/Xml/TinyXml.c:255-283 | white space is skipped up to the first other character of a run, the rest is appended |
| XmlTree.TinyXml.AddChild | src/Tiny/Xml/TinyXmlNode.c:127-155 | parent, depth and child list are set |
| XmlTree.TinyXml.AddAttributes | src/Tiny/Xml/TinyXmlNode.c:157-196 | the attributes are appended in order, each cut to its fields |
| XmlTree.TinyXml.SetText | src/Tiny/Xml/TinyXmlNode.c:217-270 | the text is extended |
| XmlTree.StrSplit | src/Tiny/String/tiny_str_split.c:19-59 | the parts between separators, at most as many as asked for, each cut to 128 characters |
| XmlTree.StrStr | src/Tiny/String/tiny_str_split.c:28-31 | the first place of the separator |
| XmlTree.Deliver | src/Tiny/Xml/TinyXml.c:129-142 | the handlers called for any events, character data and end tags inside elements only, are the steps of the runs |
| XmlTree.SearchMeans | src/Tiny/String/tiny_str_split.c:28-31 | the place found holds the separator and no earlier one does |
| XmlTree.LayoutRepresents | src/Tiny/Xml/TinyXmlNode.c:127-155 | nodes laid out in document order represent the tree, with ascending children and right parents |
| UuidClock.Clock.GetClock | src/Tiny/Uuid/TinyUuid.c:553-682 | the first call sets clock_seq and last, then the first reading not refused is emitted |
| UuidClock.Clock.TryAgain | src/Tiny/Uuid/TinyUuid.c:622-648 | the retry loop takes the first reading that is not the last one with its adjustments used up |
| UuidClock.TryFollows | src/Tiny/Uuid/TinyUuid.c:622-648 | each emitted stamp follows the last one: back, in the same microsecond with the next adjustment, or later with none |
| UuidClock.RunIsChain | src/Tiny/Uuid/TinyUuid.c:553-682 | the stamps of any run follow each other so |
| UuidText.TinyUuid.Pack | src/Tiny/Uuid/TinyUuid.c:326-356 | the 16 bytes of the fields, high bytes first |
| UuidText.TinyUuid.Unpack | src/Tiny/Uuid/TinyUuid.c:358-382 | the fields of the 16 bytes |
| UuidText.TinyUuid.ToString | src/Tiny/Uuid/TinyUuid.c:384-404 | the printed form of the bytes in the case asked for |
| UuidText.TinyUuid.CheckText | src/Tiny/Uuid/TinyUuid.c:275-306 | accepts exactly 8-4-4-4-12 digits, followed by the terminator or one more digit |
| UuidText.TinyUuid.ParseFromBuffer | src/Tiny/Uuid/TinyUuid.c:157-163 | the bytes become those of the text if it is accepted, and else stay |
| UuidText.TinyUuid.ParseFromString | src/Tiny/Uuid/TinyUuid.c:141-155 | accepts exactly the well-formed strings |
| UuidText.DigitCodes | src/Tiny/Uuid/TinyUuid.c:308-311 | the values of the hexadecimal digits by the codes of their characters |
| UuidText.FieldsRead | src/Tiny/Uuid/TinyUuid.c:308-311 | each strtoul reads its own field |
| UuidText.LastDigitIgnored | src/Tiny/Uuid/TinyUuid.c:294-305 | a 37th character passes if and only if it is the terminator or a digit |
| NameTables.SetTab | src/3rdpart_src/expat/gennmtab/gennmtab.c:356-369 | exactly the codes in the ranges are set |
| NameTables.SetRange | src/3rdpart_src/expat/gennmtab/gennmtab.c:362-367 | a range without an end sets its start only |
| NameTables.PrintTabs | src/3rdpart_src/expat/gennmtab/gennmtab.c:371-417 | page index, bitmap words and their number are those of the page-by-page layout |
| NameTables.AddPage | src/3rdpart_src/expat/gennmtab/gennmtab.c:384-408 | one turn of the loop adds the entry, words and number of one page |
| NameTables.IsShared | src/3rdpart_src/expat/gennmtab/gennmtab.c:391-391 | whether the page equals the same page of the first table |
| NameTables.PrintWord | src/3rdpart_src/expat/gennmtab/gennmtab.c:396-401 | bit k of the word is the flag of code k |
| NameTables.PrintPage | src/3rdpart_src/expat/gennmtab/gennmtab.c:395-403 | the eight words of a page |
| NameTables.KindOf | src/3rdpart_src/expat/gennmtab/gennmtab.c:385-390 | whether all flags of a page are equal, and to what |
| NameTables.MakeTab | src/3rdpart_src/expat/gennmtab/gennmtab.c:422-426 | the two tables of flags that the ranges stand for |
| NameTables.LookupStored | src/3rdpart_src/expat/lib/xmltok.c:48-49 | the lookup of the tokenizer in a page that is stored finds its flag |
| Timer.TinyTimer.Loop | src/Tiny/Timer/TinyTimer.c:210-271 | the recorded waits are those of the turns, and the running interval stays within its bounds |
| Timer.TinyTimer.SelectCorrection | src/Tiny/Timer/TinyTimer.c:235-254 | the correction and what is carried on after select |
| Timer.TinyTimer.Listen | src/Tiny/Timer/TinyTimer.c:256-269 | the time of the listener is taken off, down to half the interval |
| Timer.TinyTimer.constructor | src/Tiny/Timer/TinyTimer.c:95-104 | the running interval starts as the interval |
| Timer.StepBounded | src/Tiny/Timer/TinyTimer.c:235-269 | every turn keeps the bounds and the interval |
| HttpHeaders.HttpHeader.Parse | src/Tiny/Http/HttpHeader.c:228-310 | the fields read and the place of the final line feed, or how the parse failed and what was read until then |
| HttpHeaders.HttpHeader.TakeEntry | src/Tiny/Http/HttpHeader.c:245-294 | one field line goes on the list before its end is looked at |
| HttpHeaders.HttpHeader.GetValue | src/Tiny/Http/HttpHeader.c:154-196 | the value of the first field whose name is the same but for case, by character codes over 255 characters, or none |
| HttpHeaders.HttpHeader.Set | src/Tiny/Http/HttpHeader.c:117-133 | the field is appended, name and value cut to 256 characters |
| HttpHeaders.HttpHeader.SetInteger | src/Tiny/Http/HttpHeader.c:135-145 | the field is appended with the number in decimal |
| HttpHeaders.LookupFindsFirst | src/Tiny/Http/HttpHeader.c:154-196 | lookup returns the value of the first field whose name, over 255 characters, has at each place the same character or the same letter in the other case, told by character codes; nothing if there is none |
| HttpHeaders.LookupOfNone | src/Tiny/Http/HttpHeader.c:154-196 | without such a field lookup finds nothing |
| HttpHeaders.SameFolds | src/Tiny/Http/HttpHeader.c:170-193 | the folded names are equal if and only if the names are the same in this sense |
| HttpHeaders.HeadersBack | src/Tiny/Http/HttpHeader.c:228-310 | printed fields are what the parser reads, in order, up to the line feed of the empty line |
| HttpHeaders.EntryBack | src/Tiny/Http/HttpHeader.c:245-294 | one printed field line is read as its field |
| HttpContents.HttpContent.SetSize | src/Tiny/Http/HttpContent.c:102-131 | an empty zeroed buffer of the size, or none over the limit of 8 MB |
| HttpContents.HttpContent.AddObject | src/Tiny/Http/HttpContent.c:133-155 | the bytes are appended if all of them have room, and else nothing changes |
| HttpContents.HttpContent.IsFull | src/Tiny/Http/HttpContent.c:157-162 | whether the announced size is reached |
| HttpContents.HttpContent.Dispose | src/Tiny/Http/HttpContent.c:57-70 | no buffer and no content |
| HttpContents.HttpContent.GetObject | src/Tiny/Http/HttpContent.c:171-176 | the content with zeroes for what has not come |
| HttpMessages.HttpMessage.StatusLine | src/Tiny/Http/HttpMessage.c:646-750 | the length of an accepted status line and every field it sets, also when it is refused on the way |
| HttpMessages.HttpMessage.RequestLine | src/Tiny/Http/HttpMessage.c:752-867 | the same for a request line |
| HttpMessages.HttpMessage.ScanProtocol | src/Tiny/Http/HttpMessage.c:657-705 | identifier, slash and version |
| HttpMessages.HttpMessage.ScanVersion | src/Tiny/Http/HttpMessage.c:675-705 | digits, a dot and digits |
| HttpMessages.HttpMessage.ScanCode | src/Tiny/Http/HttpMessage.c:707-725 | the status code between spaces |
| HttpMessages.HttpMessage.ScanReason | src/Tiny/Http/HttpMessage.c:727-749 | the reason, written from the index where the identifier ended |
| HttpMessages.HttpMessage.ScanMethod | src/Tiny/Http/HttpMessage.c:763-781 | a token and a space |
| HttpMessages.HttpMessage.ScanUri | src/Tiny/Http/HttpMessage.c:783-801 | a URI and a space |
| HttpMessages.HttpMessage.ScanEnd | src/Tiny/Http/HttpMessage.c:852-863 | the end of the line sets the kind |
| HttpMessages.HttpMessage.FirstLineOf | src/Tiny/Http/HttpMessage.c:179-190 | the status line is tried first, then the request line |
| HttpMessages.HttpMessage.Parse | src/Tiny/Http/HttpMessage.c:165-236 | the message and the answer of the whole parse, for every text |
| HttpMessages.HttpMessage.TakeHeaders | src/Tiny/Http/HttpMessage.c:195-219 | fields, announced length and the step over the line feed |
| HttpMessages.HttpMessage.TakeBody | src/Tiny/Http/HttpMessage.c:204-231 | the buffer is made for the announced length and takes what has come |
| HttpMessages.ContentLengthIs | src/Tiny/Http/HttpMessage.c:204-207 | the length that is read is what atoi makes of the first field named "Content-Length" in any case, and 0 without one |
| HttpMessages.NothingAnnounced | src/Tiny/Http/HttpMessage.c:204-207 | without a field of that name the length is 0 |
| HttpMessages.AnnouncedBy | src/Tiny/Http/HttpMessage.c:204-207 | a first such field with n in decimal, n < 2^32, makes it n |
| HttpMessages.HttpMessage.ToBytes | src/Tiny/Http/HttpMessage.c:238-337 | first line, fields, empty line and content, each line cut at 255 characters, a method of 32 characters with the URI run on to it; nothing without a kind |
| HttpMessages.HttpMessage.ToString | src/Tiny/Http/HttpMessage.c:339-453 | the same text in a string that its head fits into: without the body if nothing is left for it, nothing if it does not fit, its bytes behind a terminator zero |
| HttpText.RunOf | src/Tiny/String/tiny_char_util.c:18-46 | a run of one character class in front of another character is read back |
| HttpText.TokenIs | src/Tiny/String/tiny_char_util.c:18-46 | the characters of a token are the letters, the digits and fifteen others |
| HttpText.TenDigits | src/Tiny/Http/HttpMessage.c:682-686 | digits stand for their values, the first for the highest power of ten |
| HttpText.DecBack | src/Tiny/Http/HttpMessage.c:682-686 | the digit loop reads back what %d printed |
| HttpText.AtoIOfDec | src/Tiny/Http/HttpMessage.c:205-205 | atoi reads back a printed number |
| HttpText.ReadDigits | src/Tiny/Http/HttpMessage.c:681-686 | the digits ahead and their value |
| HttpText.Skip | src/Tiny/Http/HttpMessage.c:766-770 | the end of the run ahead |
| HttpRoundTrip.FirstLineOfRequest | src/Tiny/Http/HttpMessage.c:752-867 | the printed first line of a request is refused as status line and read as request line |
| HttpRoundTrip.FirstLineOfResponse | src/Tiny/Http/HttpMessage.c:646-750 | the printed first line of a response is read, its reason behind as many terminators as the identifier is long |
| HttpRoundTrip.NoStatusLine | src/Tiny/Http/HttpMessage.c:657-673 | a text whose first token is not followed by a slash is no status line and changes nothing |
| HttpReceive.LengthFieldReassembles | src/UpnpStack/UpnpHttp/UpnpHttpServer.c:330-398 | a printed request whose first Content-Length field gives the length of its body in decimal is received as it was printed, however its body is cut into pieces behind the head |
| HttpRoundTrip.RequestExample | src/Tiny/Http/HttpMessage.c:238-337 | the text of a request with a body, line by line |
| HttpRoundTrip.ResponseExample | src/Tiny/Http/HttpMessage.c:238-337 | the text of a response without one |
| HttpReceive.Receive | src/UpnpStack/UpnpHttp/UpnpHttpServer.c:330-398 | the message and the answer for every sequence of pieces |
| HttpReceive.CollectBody | src/UpnpStack/UpnpHttp/UpnpHttpServer.c:365-387 | the loop over the further pieces, and how many it took |
| HttpHeads.FirstLineGoesOn | src/Tiny/Http/HttpMessage.c:646-867 | an accepted first line is accepted the same with more text behind it |
| HttpHeads.HeadersGoOn | src/Tiny/Http/HttpHeader.c:228-310 | and so are header fields read up to the empty line |
| Ssdp.ToString | src/UpnpStack/UpnpRegistry/SsdpMessage.c:782-845 | the printed form of a message |
| Ssdp.SetAlive | src/UpnpStack/UpnpRegistry/SsdpMessage.c:797-809 | the fields an alive message is printed with |
| Ssdp.SetByebye | src/UpnpStack/UpnpRegistry/SsdpMessage.c:811-819 | the fields a byebye message is printed with |
| Ssdp.SetSearch | src/UpnpStack/UpnpRegistry/SsdpMessage.c:821-830 | the fields a search request is printed with |
| Ssdp.ConstructFrom | src/UpnpStack/UpnpRegistry/SsdpMessage.c:280-363 | the message read from a buffer, by kind, method and NTS |
| Ssdp.ReadAlive | src/UpnpStack/UpnpRegistry/SsdpMessage.c:24-105 | all fields but SERVER must be there; each is cut to its length |
| Ssdp.ReadByebye | src/UpnpStack/UpnpRegistry/SsdpMessage.c:107-160 | all four fields must be there |
| Ssdp.ReadSearch | src/UpnpStack/UpnpRegistry/SsdpMessage.c:162-215 | all four fields must be there; MX is read by atoi |
| Ssdp.ReadAnswer | src/UpnpStack/UpnpRegistry/SsdpMessage.c:217-278 | all fields but SERVER must be there |
| Ssdp.ReadersChoice | src/UpnpStack/UpnpRegistry/SsdpMessage.c:280-363 | a NOTIFY is read as alive if its first NTS field is "ssdp:alive", as byebye if it is "ssdp:byebye", and else not looked at |
| Ssdp.AliveText | src/UpnpStack/UpnpRegistry/SsdpMessage.c:797-809 | an alive message is printed as its request line, its seven fields in order and an empty line |
| Ssdp.ByebyeText | src/UpnpStack/UpnpRegistry/SsdpMessage.c:811-819 | a byebye message with three of its four fields |
| Ssdp.SearchText | src/UpnpStack/UpnpRegistry/SsdpMessage.c:821-830 | a search request with its four fields |
| Ssdp.NtsIsThere | src/UpnpStack/UpnpRegistry/SsdpMessage.c:280-363 | a NOTIFY whose NTS selected the reader has an NTS field, so that testing nt in its place has no effect |
| Ssdp.AnswerPrintsNothing | src/UpnpStack/UpnpRegistry/SsdpMessage.c:832-839 | a search response prints nothing, and nothing is no message |

## Left out

- Sockets, select, threads, multicast, the TCP layer and HttpServer.c, HttpConnPool.c, HttpConn.h: system calls and an unported layer; received data, clock readings, random bytes and SAX events are inputs.
- The tokenizer and parser core of expat: tokens (a kind and a keyword) and events are inputs.
- Failing allocations, logging, New and Delete functions, plain getters and setters: there is no property of interest in them.
- GENA, device and service documents, data types, argument directions and result code tables, `tiny_getstrtime`: plumbing or finite case checks.
- Worker threads are steps of a state machine on values, not a class: the listener test and call are one step, and a delete listener is set. One thread does all starting, stopping and disposing of a worker. A wait on the semaphore that is interrupted is not modelled.
- `Md5.TinyMd5.Update`: requires that its loop ends (`Md5.LoopEndsExactly`), and does not model what is read past the input otherwise.
- `Containers.TinyList.SetAt`: requires a delete listener when the position is valid, because the code calls it unchecked. Positions are unbounded integers.
- Provider, registry and HTTP header lists are held as sequences of items, with the functions that TinyMap and TinyList are proved to refine, and not as heap lists; there are fewer than 2^32 entries. Listeners do not call back into the object that calls them.
- `Provider.UpnpProvider.Add`: does not model the change listeners of services.
- `Registry.UpnpRegistry.OnAlive`: what the validator and the user's filter say is an input, and the time of the next notification is not kept. What stands in memory behind a full USN field is an input.
- `UuidClock.Clock.GetClock`: no state file and `num` null; readings are from 15 October 1582 on, so that their timestamps are not negative, and fit into 64 bits.
- XML nodes are indices in the order of their making; a node without text has the empty text; freeing is not modelled.
- `Timer.TinyTimer.Loop`: the loop that never ends (times 0); the counted loop keeps its interval. The smallest 64-bit integer, which cannot be negated, is excluded.
- `HttpMessages.HttpMessage.Parse`: where the code would write behind a fixed field or read past the text without end, the outcome is only that it does. Numbers are unbounded where C leaves overflow undefined.
- `HttpMessages.HttpMessage.ToBytes`: bytes without the zeroes that strncpy pads with, and without the size of the buffer they are written to.
- `HttpMessages.HttpMessage.ToString`: requires that the head fits; the code writes a longer one past the end of the string.
- `HttpMessages.HttpMessage.constructor`: protocol identifiers have fewer than 8 characters; longer ones have no terminator in their field and run on into the method.
- `Ssdp.SearchSurvives`: MX is not negative, since it is printed as an unsigned number. Addresses and ports of SSDP messages are not kept.
- `NameTables.Generate`: words are numbers; setting a bit above all others is an addition.
