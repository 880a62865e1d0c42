# nkv, modelled in Dafny

nkv is a hierarchical key-value store with notifications. Keys are dotted paths. One in-place trie
is used twice: as an index that must agree with a flat storage engine, and as a router that decides
who is told about a change. This project models that core, the storage engines under it, the wire
format around it and the buffer between a subscription and its clients, and proves properties of
all four.

`dafny verify dfyconfig.toml` checks the whole project.

## How the model is laid out

- `Text`, `Paths`, `Sets`, `Wrappers`: the string operations the source uses, dotted keys as segment
  paths, and the two readings of a `*`. Lookup (`Reaches`) stops at the first `*` and takes all below;
  removal (`Matches`) takes a `*` before the last segment as exactly one segment.
- `Tries`, `TrieIteration`, `Canonical`: the heap trie, node by node, against the map it stands for;
  its explicit-stack iterator; what the pruning invariant buys.
- `Core`, `Runs`, `Subscriptions`: the core as a state machine over values, with theorems over whole
  runs. `Notifications` and `Nkv`: the classes `Notification` and `NkvCore` on the heap, whose methods
  are proved to take exactly the steps of `Core`.
- `KeyPaths`, `Disks`, `StoreDisks`, `Storage`, `Engines`: the key/path coding, a file system that
  records every state it goes through, the three engines, and the sum type `Engine` that stands in for
  the source's type parameter `P: StorageEngine`. `Restart`: crashes and restarts. `Histories`: the
  theorems about runs, carried to the object.
- `Base64`, `Tokens`, `Serializing`, `Requests`, `Responses`, `MessageText`: printers and parsers, with
  base64 as in section 4 of RFC 4648.
- `Notifier`: the two-slot buffer and the two tasks around it, as a step machine.

`NkvCore` carries a ghost state `st`. `Faithful` says that the heap stands for `st`; `Valid` adds that
index and store agree. A channel is the log of everything ever sent to it. A subscription has a number,
and `logs[i]` is the log of subscription `i`.

Values bound to keys are sequences of bytes; hash maps are iterated in an order the proofs do not fix.

## Model

| member | source | states |
|---|---|---|
| `Tries.Trie.Insert` | src/trie.rs:120-138 | binds the key's path and nothing else, or refuses a key with a `*` and changes nothing; the trie stays pruned |
| `Tries.Trie.Get` | src/trie.rs:140-158 | lists, without repetition, the values of exactly the stored paths that the pattern reaches; the closing wildcard branch is dead |
| `Tries.Trie.GetMut` | src/trie.rs:160-182 | lists the same paths as `Get`, and runs its callback on exactly the existing nodes before the target, root first, up to the first `*` or missing segment |
| `Tries.Trie.Capture` | src/nkv.rs:229-242 | what the callback gathers is the values of all stored paths strictly above the key, once each |
| `Tries.Trie.CollectValues` | src/trie.rs:243-252 | lists the values at and below a node, once each |
| `Tries.Trie.Remove` | src/trie.rs:184-187 | for every pattern, several and middle wildcards included: erases exactly the bindings the pattern matches, answers true exactly if the map changed, and leaves no dead branch |
| `Tries.Trie.DeleteRecursive` | src/trie.rs:189-241 | the same below any node: the matching bindings go, only nodes strictly below may go, and an unsuccessful call changes nothing |
| `Tries.Trie.Equals` | src/trie.rs:255-259 | node-by-node equality decides equality of the maps two tries stand for: one shape per map |
| `Canonical.InsertThenRemove` | src/trie.rs:120-187 | inserting a fresh key and removing it leaves a trie equal to its untouched twin |
| `Canonical.AnyOrder` | src/nkv.rs:196-205 | indexes built from the same keys in different orders are equal tries |
| `Canonical.SameLookup` | src/trie.rs:140-182 | any two listings of one lookup, by `get` or by `get_mut`, hold the same values equally often |
| `Canonical.DrainIsCollect` | src/trie.rs:72-94 | draining the iterator gives the values that collecting from the root gives, each under its dotted key exactly unless the key starts with a dot and goes on |
| `TrieIteration.TrieIter.Next` | src/trie.rs:75-94 | terminates, yields a stored pair not yielded before, and ends only when none is left |
| `TrieIteration.IterPathExact` | src/trie.rs:78-85 | the path text the iterator carries is the dotted key exactly if the path has one segment at most or a non-empty first one |
| `Paths.MatchedIsReached` | src/trie.rs:140-241 | whatever a pattern removes, a lookup of it finds |
| `Nkv.NkvCore.New` | src/nkv.rs:196-212 | starts a core that stands for the engine's map, with the index of its keys; fails exactly if a stored key has a `*` |
| `Nkv.NkvCore.Put` | src/nkv.rs:214-277 | takes `Core.PutStep` on the heap, refuses exactly wildcards and malformed keys, and is crash-safe at every disk change |
| `Nkv.NkvCore.Get` | src/nkv.rs:279-287 | answers `Core.Get`: the stored pairs that the index names for the pattern |
| `Nkv.NkvCore.Delete` | src/nkv.rs:289-337 | takes `Core.DeleteStep` for every pattern and never fails, since no storage delete meets a missing key; keeps index and store together if the two readings agree; a crash leaves the old durable map less some of the named keys; the index objects, the notifier objects and the channels stay the same ones |
| `Nkv.NkvCore.Subscribe` | src/nkv.rs:339-382 | takes `Core.SubscribeStep`; fails exactly if the client is already subscribed there, opening no channel |
| `Nkv.NkvCore.Unsubscribe` | src/nkv.rs:384-403 | takes `Core.UnsubscribeStep`; succeeds exactly if the key reaches one notifier; no object is added |
| `Nkv.NkvCore.Trace` | src/nkv.rs:405-440 | lists the clients of the subscriptions the key reaches and of those strictly above it, as often as there are such |
| `Notifications.Notification.SendToAll` | src/nkv.rs:88-129 | appends the message once to every subscriber's channel and to no other |
| `Core.SendAbove` | src/nkv.rs:250-274 | one send to the target and one to the nodes on the way together reach each subscription at or above the key once; the target is never more than one node |
| `Core.StepDelivers` | src/nkv.rs:214-403 | exact delivery, for every operation and delete pattern: the messages each open subscription gets, and whether it stays open |
| `Core.StepForgets` | src/nkv.rs:57-129 | a subscription that is open nowhere never gets another message and never reopens |
| `Runs.ExecKeepsInv` | src/nkv.rs:214-403 | every supported run keeps the index at each path equal to its dotted key, its keys equal to the store's, and subscription numbers unique |
| `Runs.ExecKeepsTidy` | src/nkv.rs:214-403 | runs with deletes of any pattern keep stored paths free of `*` and subscription numbers unique |
| `Runs.SupportedCovers` | src/nkv.rs:214-403 | supported are at least all puts and unsubscribes, subscriptions without a `*`, and deletes of a key without one, of `p.*`, and of `*` |
| `Runs.StepIsFlat` | src/nkv.rs:214-403 | the store after a supported operation is the flat map after a whole-key put or after erasing the keys the pattern matches |
| `Runs.RunRefinesFlatMap` | src/nkv.rs:214-337 | over every supported run the store is the flat map, and every lookup answers the flat map's pairs that the pattern reaches |
| `Runs.DeleteSync` | src/nkv.rs:324-334 | a delete keeps index and store together exactly if both readings pick the same stored paths |
| `Runs.DeleteSyncExactly` | src/nkv.rs:324-334 | a delete keeps them together after every run of safe operations from the empty state exactly if its own key is `DeleteSafe`, a check on the key alone |
| `Runs.MiddleStarLosesTheParent` | src/trie.rs:140-241 | after putting `a`, deleting `a.*.b` drops `a` from the store but not from the index, and a lookup of `a` answers no bytes |
| `Subscriptions.ExactDelete` | src/nkv.rs:307-322 | deleting a wildcard-free key closes the subscriptions there, tells those above with one close each, and says nothing to those below |
| `Subscriptions.SubtreeDelete` | src/nkv.rs:307-334 | deleting `p.*` gives exactly one close to each subscription at or below `p`, which ends, and to each above, which stays |
| `Subscriptions.Opening` | src/nkv.rs:369-380 | a new log is Hello and then the stored value, if the exact key is stored |
| `Subscriptions.LogGrammar` | src/nkv.rs:57-129 | over whole runs a log is its opening, then updates at or below its key and closes strictly below it, then at most one final close, after which nothing is appended and it is open nowhere |
| `Subscriptions.ReplayMirrorsStore` | src/nkv.rs:214-403 | over every supported run, replaying an open subscription's log gives only pairs that are stored at or below its key, agrees with the store on the key itself, and holds every key below it put since subscribing that is still stored |
| `Subscriptions.TraceTellsTheTruth` | src/nkv.rs:405-440 | the subscriptions that tracing a key visits are exactly those whose logs the next put of it extends, each by one update |
| `KeyPaths.KeyRoundTrip` | src/storage/file_storage.rs:33-52 | reading a key back from its file name inverts the coding for every slash-free key, repeated suffix trim included |
| `KeyPaths.KeyPathExactly` | src/storage/file_storage.rs:33-35 | the file of a key is its segments as directories, with `.json` on the last one |
| `KeyPaths.AcceptableExactly` | src/storage/file_storage.rs:33-35 | the keys the file system model covers are exactly those without a slash and without an empty segment |
| `KeyPaths.FileHasKey` | src/storage/file_storage.rs:37-52 | every well-formed file name is the file name of the key read from it |
| `KeyPaths.NoFileIsADirectory` | src/storage/file_storage.rs:33-35 | no key's file is a directory on the way to another key's file |
| `StoreDisks.ScratchIsInvisible` | src/storage/file_storage.rs:149-152 | a temporary file beside the two directories leaves the disk a store that shows the same map |
| `StoreDisks.DirsAreInvisible` | src/storage/file_storage.rs:154-156 | so do half-made and left-over directories on the way to a key's file |
| `StoreDisks.RenameLands` | src/storage/file_storage.rs:158-159 | the rename turns the map shown into the one with the new value under the key |
| `Storage.FileStorage.Open` | src/storage/file_storage.rs:77-104 | opening a store disk keeps the map it shows; the errors are exactly a root that is no directory, and an ingest or a digest that is a plain file; afterwards both directories are there, ingest is empty, and nothing else has changed |
| `Storage.FileStorage.AtomicWrite` | src/storage/file_storage.rs:149-161 | binds the key, and every disk on the way is a working store that shows the map before or after |
| `Storage.FileStorage.Delete` | src/storage/file_storage.rs:118-120 | unbinds the key; succeeds exactly if it was there |
| `Storage.FileStorage.Get` | src/storage/file_storage.rs:122-131 | the value stored under the key, no bytes if there is none |
| `Storage.FileStorage.Keys` | src/storage/file_storage.rs:133-140 | lists every stored key exactly once, empty directories or not |
| `Storage.FileStorage.IterateFolders` | src/storage/file_storage.rs:54-75 | lists the keys of exactly the files at or below a directory, one per file |
| `Storage.MemoryStorage.Keys` | src/storage/memory_storage.rs:55-58 | lists every stored key exactly once |
| `Engines.RouterStorage.Put` | src/storage/router_storage.rs:38-44 | binds the key in the one map the two halves form and keeps their keys apart: a key that begins with `runtime` goes to memory and leaves the disk's map alone, any other key goes to disk and leaves memory alone |
| `Engines.RouterStorage.Delete` | src/storage/router_storage.rs:46-52 | unbinds the key there; succeeds exactly if it was there |
| `Engines.RouterStorage.Keys` | src/storage/router_storage.rs:62-66 | lists every key of either half exactly once |
| `Engines.Engine.Put` | src/storage/traits.rs:6 | what `NkvCore` relies on, proved for all three engines: the map changes at the key only, and a crash shows the durable map before or after |
| `Restart.RestartAtRest` | src/nkv.rs:196-212 | a core restarted on the disk of another, with fresh memory beside it if it routes, answers every lookup as that one did; if it routes, a key is answered again exactly if it was answered before and does not begin with `runtime`, with the same value |
| `Restart.CrashInPut` | src/storage/file_storage.rs:149-161 | whichever disk change of a put a crash follows, after any history, the restarted core answers every lookup as before the put or as after it, never a mixture |
| `Restart.CrashInDelete` | src/nkv.rs:324-331 | whichever disk change of a delete a crash follows, the restarted core answers from the old store less some of the keys the pattern names: all of them kept before the first disk change, and after the last what a restart of the finished core answers |
| `Histories.Apply` | src/nkv.rs:214-403 | any supported operation on the object is the machine's step, and the object can go on from there |
| `Histories.ApplyAll` | src/nkv.rs:214-403 | any supported history of the object is the machine's run, from whatever valid state it starts |
| `Histories.LookUpAfter` | src/nkv.rs:214-337 | after any history `get` on the object answers what a flat map put through that history answers |
| `Histories.Follow` | src/nkv.rs:339-382 | the channel `subscribe` returns holds, after any history, its opening messages and a well-formed tail, and while it is open replaying it gives back what the engine stores |
| `Histories.FromScratch` | src/nkv.rs:196-287 | a server started on an empty directory, and any history of storable keys: lookups answer what a flat map, empty at first, answers |
| `Histories.CrashAfter` | src/storage/file_storage.rs:149-161 | any history and then a put cut short by a crash: the restarted core answers as the machine does without that put or with it |
| `Base64.DecodeEncode` | src/request_msg.rs:62-64 | decoding inverts encoding on every byte string |
| `Base64.EncodeDecode` | src/request_msg.rs:145-151 | the decoder accepts nothing but what the encoder writes |
| `Base64.EncodedText` | src/request_msg.rs:62-69 | encoded text is four alphabet characters for every three bytes begun |
| `Base64.TableExactly` | src/request_msg.rs:62-64 | which symbol stands for which six bits at each place of a quad, by the table of section 4 of RFC 4648 |
| `Base64.QuadsExactly` | src/request_msg.rs:62-64 | the text of no, one, two and three bytes and more, bit by bit through that table, with its padding |
| `Tokens.WhiteExactly` | src/request_msg.rs:281 | whitespace is the 25 characters with the Unicode property White_Space |
| `Tokens.WordsBlanked` | src/request_msg.rs:281 | tabs, newlines and all other whitespace separate words as spaces do |
| `Tokens.WordsTrimEnd` | src/srv.rs:269 | trimming the end removes whitespace only, all of it, and no word |
| `Tokens.WordsSpaced` | src/request_msg.rs:280-289 | words written with a space in front of each are split into those words, in order and with repetitions, less the empty ones |
| `Tokens.RejoinedExactly` | src/request_msg.rs:354-384 | joining a text's words with spaces gives the text exactly if its only whitespace is single spaces between words |
| `Requests.FromStr` | src/request_msg.rs:113-196 | stepping through the pieces of a line reads what the function `Read` reads |
| `Requests.RequestRoundTrip` | src/request_msg.rs:58-196 | reading undoes printing exactly if id, client and key hold no space and a health or version request carries its fixed key; the value may be any bytes |
| `Requests.ReadExactly` | src/request_msg.rs:113-196 | for every line: it is read as a request exactly if its pieces between spaces are that request's command word, id, client and key, and for a put the base64 of its value and no more |
| `Requests.RefusedExactly` | src/request_msg.rs:113-196 | for every line: which missing field, unknown command or bad base64 it is refused for, exactly |
| `Requests.FixedKeys` | src/request_msg.rs:96-105 | a printed health request is read with the key `HK`, a version request with `DISCARDME` |
| `Requests.TrimmedRoundTrip` | src/srv.rs:269-275 | after the server's trim a put of no bytes, and nothing else made of words, is lost: its value is missing; a newline at the end of the line, with or without a carriage return, makes no difference |
| `Responses.MarshalMap` | src/request_msg.rs:261-269 | the loop over the hash map prints each pair once, in the order of some enumeration of the map |
| `Responses.UnmarshalMap` | src/request_msg.rs:280-297 | the loop over chunks reads what the function `ReadPairs` reads |
| `Responses.ResponseRoundTrip` | src/request_msg.rs:203-480 | for every enumeration of the map: reading undoes printing exactly if ids, keys and names are single words, values are not empty and text is normally spaced; for a base response, if the id is not empty, has no space and does not start with whitespace |
| `Responses.EmptyValuesMisread` | src/request_msg.rs:260-297 | two empty values can be read as one pair: a well-formed answer that is wrong |
| `Responses.ReadExactly` | src/request_msg.rs:223-480 | for every line: it is read as a response exactly if it spells that response: kind, id, `OK` or `FAILED`, and the payload, where the last pair of a key counts |
| `Responses.NoKindRefused` | src/request_msg.rs:456-480 | a line is refused for want of a type exactly if it has no first word of a known kind or nothing after it |
| `Responses.BaseRefused` | src/request_msg.rs:223-243 | what a base response without a status, or with an unknown one, is refused for |
| `Responses.RefusedExactly` | src/request_msg.rs:280-384 | what every other response that does not parse is refused for: no id, no status, an unknown one, an odd number of words, bad base64 |
| `Responses.TrimmedRoundTrip` | src/lib.rs:207-220 | a sendable response survives the client's trim, with or without a newline |
| `MessageText.FromStr` | src/request_msg.rs:518-560 | stepping through the words of a line reads what the function `Read` reads |
| `MessageText.MessageRoundTrip` | src/request_msg.rs:503-560 | reading undoes printing exactly if keys are single words and values are not empty; an empty value is missing |
| `MessageText.LineRoundTrip` | src/notifier.rs:164-171 | the same for the line that goes over the socket, newline included |
| `MessageText.ReadExactly` | src/request_msg.rs:518-560 | for every line: it is read as a message exactly if its words spell that message |
| `MessageText.RefusedExactly` | src/request_msg.rs:518-560 | for every line: which missing word, unknown type or bad base64 it is refused for, exactly |
| `Notifier.StateBuf.Store` | src/notifier.rs:48-50 | fills the current slot and leaves the other |
| `Notifier.StateBuf.Pop` | src/notifier.rs:51-59 | hands out the current slot, empties it and turns to the other |
| `Notifier.RunKeepsInv` | src/notifier.rs:84-103 | every interleaving keeps the off slot empty, a full slot announced by a signal, a wake-up or a producer about to signal, and nothing lost or reordered |
| `Notifier.LatestIsNeverLost` | src/notifier.rs:84-140 | over every interleaving: what arrived is emitted, overwritten, buffered or still on its way; what is emitted keeps the order of arrival; once things have settled the last message emitted is the last that arrived |
| `Notifier.TasksAreIndependent` | src/notifier.rs:84-103 | whether a task can take a step depends on its own place and on what it waits for, never on where the other task is |
| `Notifier.EveryChoiceHappens` | src/notifier.rs:41-60 | for any messages and any choice among them that has the last one: some run emits exactly the chosen ones and overwrites exactly the others, and so does some run in which all messages arrive at once |
| `Notifier.BothExtremesHappen` | src/notifier.rs:41-60 | every message may get out, and every message but the last may be overwritten |
| `Notifier.NeverRests` | src/notifier.rs:86-96 | once its input has ended the sending task can wake for ever, emitting nothing |
| `Notifier.WorkRunsOut` | src/notifier.rs:84-103 | however the two tasks are scheduled, what has arrived takes a bounded number of steps |
| `Notifier.IdleIsSettled` | src/notifier.rs:84-103 | the tasks have nothing to do exactly when things have settled and the receiving task need not end |

## Where the code and its documentation differ

The model follows the code.

- Deleting a key without a `*` does not notify subscriptions below it, although docs/KEYSPACE.md:71-82
  says that children are notified (`Subscriptions.ExactDelete`; `Subscriptions.SubtreeDelete` for `p.*`).
- The temporary file is made in the root directory (src/storage/file_storage.rs:150-151), not in the
  ingest directory as lines 18-20 say. Clearing the ingest directory on start therefore leaves orphans
  alone; they never show up as keys.
- Keys that begin with the characters `runtime`, such as `runtimes`, are kept in memory, not only those
  under `runtime.*` (src/storage/router_storage.rs:18).
- The branch that ends the sending task (src/notifier.rs:93) is never taken: the pattern before it
  accepts the error of a closed channel, so once its input has ended the task keeps waking to an empty
  buffer.

## Left out

- Nkv.NkvCore.Subscribe: asks for a key without a `*`; with one, the error of the trie's insert is ignored (src/nkv.rs:356) and the notifier is not reachable from the trie.
- Nkv.NkvCore.Delete: is proved for a core whose index and store agree. After a delete that is not `Agreeing` the object is still `Faithful`, but a later delete of a lost key would fail half-way, which is not modelled.
- Subscriptions.LogGrammar: speaks of the machine `Core`, also past a delete that parts index and store; `NkvCore` is proved to take its steps as long as they agree.
- Nkv.NkvCore.Put: asks the engine to accept the key: on disk, keys with a slash or an empty segment are outside the model. Writing is taken to succeed, and so is sending: receivers stay open.
- Storage.FileStorage.AtomicWrite: asks for a key without slashes and empty segments; others name files outside the key's own place in the tree.
- Storage.FileStorage.Delete: the same.
- Storage.FileStorage.Get: the same.
- Engines.RouterStorage.Put: the same, for keys that do not begin with `runtime`.
- Engines.RouterStorage.Delete: the same.
- Engines.Engine.Put: the same, wherever the engine has a disk.
- Disks.FileSystem.RemoveDirAll: is one step; a crash while the ingest directory is being cleared is not modelled.
- Notifications.Notification.SendToAll: stands for `send_update`, `send_close` and `send_hello`, which differ in the message only.
- Core.KeyCorrect: replaces the regular expression of src/nkv.rs:442-456 by its language, a non-empty text without a newline.
- Notifier.LatestIsNeverLost: stops at the emitted sequence; each broadcast runs in a task of its own, so the order at one client is not promised by the code.
- The server's sockets, framing, request handlers and its own map of notifiers (src/srv.rs), the client library (src/lib.rs), the subscriber (src/notifier.rs:204-300) and the two programs: I/O and forwarding.
- Locks: a notifier is a plain object here, since one thread runs the core. The two tasks of the notifier are modelled as atomic steps.
- `Debug` and tree printing, error texts, the flag parser, cloning of tries: would only add easy members.
- `PartialEq` of responses, which ignores the id; the round trips here are about equality of all fields.
