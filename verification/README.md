# oopt: configuration tree and device database

oopt configures a packet transponder. This project models its two stateful cores and proves what they keep.

**The gNMI Set engine** (`pkg/gnmi`). A configuration is an IETF JSON tree. A Set request edits a private copy of it,
path by path: deletes, then replaces, then updates. Keyed lists are searched linearly, entries are appended when they
are missing and deleted by swapping with the last one. After every effective operation the tree is validated and sent
to the device, which may refuse; then the stored configuration is sent again. The last step swaps the new tree in.

| files | what they hold |
|---|---|
| `PathTree`, `PathLaws`, `KeyMoves` | the reference: a tree of finite maps with key tuples, edits along paths, moves of entries to other key tuples, and their laws |
| `JsonTree`, `JsonEdit`, `EditMeaning` | the JSON tree, the edits as functions, and what they mean in the reference tree |
| `KeyEdits` | requests that end on a key attribute: when they move an entry, when they break its list |
| `TreeTheorems` | read after write, frame, commutation, idempotence, over every well-formed tree |
| `JsonHeap`, `JsonHeapEdit`, `JsonWalk` | the objects and slices the server mutates in place, and its methods, proved against the functions |
| `Transaction`, `SetOutcomes`, `RequestTheorems`, `Server` | a request as a transaction with a device that may fail; how it ends; what it means as a whole; the class with `Set` |

**From the configuration to SONiC's database** (`cmd/oopt`, `pkg/sonic`). A full rebuild writes ports, VLANs, members
and module rows; an incremental path compares two commits and changes only what differs. Around them are the breakout
commands, the validator, the Redis codec and the commit log.

| files | what they hold |
|---|---|
| `Text`, `Names`, `Sums` | decimal text, names and their inverses, sums over sets |
| `Transponder`, `Cli`, `Breakout`, `Commands` | the configuration, the editing commands, the wiring every session keeps, when each command succeeds |
| `Validation` | `validateFinal`: connections, port modes, channel capacity |
| `RedisCodec`, `Redis` | fields in hashes, the client, rows that never share a hash |
| `Rebuild`, `Database`, `Wiring` | the rebuild in any order, the rows it stores, the reboot |
| `Changes`, `Handlers` | the difference of two configurations and the three handlers as they run |
| `Moves`, `Incremental`, `Convergence`, `Divergence`, `ModuleSync`, `Sync` | when the incremental path reaches the rebuild, exactly |
| `DeviceView` | lanes, VLAN rows and module settings as the texts the device reads |
| `Equivalence` | when two accepted configurations rebuild to the same database |
| `Residue` | what one unsafe change leaves in the database, row by row |
| `System`, `Runs`, `Sessions` | the program, whole runs of it, rollback, and commits after command line sessions |

Go walks maps in any order. Loops over maps pick any remaining element, and results are stated for every order.

## Results worth knowing

* A reader at a path that parts from an edited path sees a change exactly when it reads a key attribute of a list entry
  the edit has just created, or, if the edit gives a key attribute another text, something of the entry this moves
  (`TreeTheorems.EditFrame`).
* A request may end on a key attribute of the entry it has entered, and the server does not compare its value with the
  path. Writing another text there moves the entry to the new key tuple if no entry of the list has it, and otherwise
  leaves two entries with one tuple (`KeyEdits.KeyWriteMoves`, and `KeyWrittenTwice` with two interfaces). Deleting a key
  attribute of an entry that is there leaves a list whose searches fail (`KeyEdits.KeyDeleteBreaks`); the next write
  behind that entry, if validation has let the tree pass, assigns into a nil map (`KeyEdits.KeyDeletedCrashes`). The
  theorems about edits of well-formed trees have exactly this condition, `TreeTheorems.KeepsKeys`.
* After a Set that fails late, the device can be ahead of the stored configuration: only the failing operation is rolled
  back, and only if the device refused it. A refused request leaves them in agreement exactly if, before its first
  operation that cannot be made or gives an invalid tree, the device was told nothing or last of the old configuration
  (`Transaction.DeviceAgreesOnFailure`, with an example).
* A Set succeeds exactly if its operations can be made one after the other, every tree the device is to be told of is
  valid and taken, and the last tree is valid (`SetOutcomes.SetSucceeds`). The first thing that goes wrong decides the
  status; only a tree the device refuses is followed by the stored configuration, and then the answer is Aborted or
  Internal by whether the device takes that (`SetOutcomes.SetFails`, `SetOutcomes.RefusedIsRolledBack`).
* The device is told of a delete of a leaf that is not there, and of one below a missing list entry, as long as all
  containers on the way exist (`TreeTheorems.DeleteIsTold`).
* A delete of the root is not sent to the device (`Transaction.DeviceAgreesOnSuccess`).
* The empty entry does not survive SetEntry and GetEntry: its placeholder is read as a field (`RedisCodec.RoundTrip`).
* handleDiff on a database in sync leaves it in sync, without a reboot, exactly if every interface either stays
  unconnected, or keeps its description and either gets its first connection or keeps its connection id
  (`Sync.HandleDiffConverges`). One other change spoils the VLAN tables in every order of the walk, whatever else
  changes (`Divergence.OneUnsafe`). Clearing a connection is the shortest example: the commit reports no error and
  the database misses the rebuild (`Sessions.ClearingMisses`). What a lone unsafe change leaves is known row by row: a
  new id with the same far end gives a VLAN that lists the client only, a new id with a new far end leaves the client listed
  in its old VLAN as well (`Residue.OneUnsafeLeaves`).
* Breaking a port of the default configuration out into four is accepted only at 10 or 25 Gb/s: both commands succeed at any
  speed, and a commit without a new speed is refused (`Sessions.BreakOutAccepted`).
* handleDiff fails exactly if a commit unsets one of seven module leaves; the command line never does that, a rollback
  can (`Sync.HandleDiffConverges`, `Sessions.SessionCommit`): setting prbs of the first module, committing, and rolling
  the commit back fails in every order (`Sessions.RollbackFails`).
* A dry commit keeps the database in sync, and so does a reboot of a file that was not committed, exactly if the two
  configurations have the same interfaces with the same connections and modules with the same texts in their columns
  (`Equivalence.SameRebuildSameLeaves`).
* From init on, the database equals the rebuild of the newest commit after every action, and no action fails, exactly if
  every action is safe in that sense (`Runs.RunConverges`).

Where the code and its comments differ, the model follows the code: the comment in `HandleInterfaceDiff` that an
interface belongs to one VLAN holds for client interfaces only, and the members an old VLAN keeps are all written back
under the name of the interface that leaves (`pkg/sonic/interface.go:225`). The check that keys in a path and in a value
agree (`pkg/gnmi/server.go:229-239`) holds for the value of an entry, not for that of a key attribute. The message of
num-channels offers 2 channels, which the command refuses (`cmd/oopt/main.go:488-490`); the message for two channels offers
20 Gb/s, which validation refuses (`cmd/oopt/main.go:139-145`). channel-speed takes SPEED_UNKNOWN, which validation refuses.

## Model

| member | source | states |
|---|---|---|
| PathLaws.ReadEdited | pkg/gnmi/server.go:368-396 | in the reference tree an edited path reads as what the edit makes of what was read there before |
| PathLaws.Frame | pkg/gnmi/server.go:368-396 | a reader at a diverging path sees a change if and only if the edit created an entry whose key attribute it reads |
| PathLaws.EditsCommute | pkg/gnmi/server.go:288-308 | any two edits at diverging paths give the same tree in both orders; one that creates must not end on a key attribute or must not depend on its old value |
| JsonTree.FindIsLookup | pkg/gnmi/util.go:61-90 | the linear search of a keyed list is the lookup of a finite map: it finds the one entry with the key tuple, or none |
| JsonTree.AppendInserts | pkg/gnmi/util.go:92-101 | appending an entry with a new key tuple inserts it into the map and keeps keys unique |
| JsonTree.ReplaceUpdates | pkg/gnmi/server.go:220-243 | rewriting an entry without changing its keys updates the map at that tuple only |
| JsonTree.SwapDeleteRemoves | pkg/gnmi/server.go:198-207 | overwriting an entry with the last one and shortening the list removes exactly its key tuple |
| EditMeaning.SetMeans | pkg/gnmi/server.go:368-396 | a replace or update along any path that follows the schema, which does not give a key attribute another text, is the reference edit, keeps the tree well-formed, and is refused exactly when the value contradicts the path's keys |
| EditMeaning.DeleteMeans | pkg/gnmi/server.go:288-308 | a delete is the reference removal, keeps the tree well-formed with no empty list, and leaves the JSON itself as it was when the path reads as nothing; all of it unless it takes a key attribute from an entry that is there |
| KeyMoves.ReadMoved | pkg/gnmi/server.go:249-253 | in the reference tree an entry whose key attribute got another text reads as nothing under the old key tuple and as itself, with the new text, under the new one |
| KeyMoves.MoveFrame | pkg/gnmi/server.go:249-253 | a reader that parts from the written attribute sees a change if and only if it reads something of the entry under its old or new tuple, or a key attribute of a new entry on the way |
| KeyEdits.KeyWriteMoves | pkg/gnmi/server.go:249-253 | writing a key attribute with another text is never refused; the tree stays well-formed if and only if no entry has the new key tuple, and then the entry has moved to it; nothing is left under the old one |
| KeyEdits.KeyWrittenTwice | pkg/gnmi/server.go:249-253 | an example: interfaces a and b, the name of a is replaced by b, and the list holds b twice |
| KeyEdits.KeyDeleteBreaks | pkg/gnmi/server.go:295-300 | deleting a key attribute of an entry that is there leaves a tree that is not well-formed |
| KeyEdits.KeyDeletedCrashes | pkg/gnmi/util.go:74-78 | an example: after the name of interface a is deleted, a write below interface b assigns into a nil map |
| TreeTheorems.ApplyMeans | pkg/gnmi/server.go:283-396 | every acceptable operation succeeds; it keeps the tree well-formed if and only if it keeps the keys, and then it means its reference edit or the move of an entry |
| TreeTheorems.ReadAfterEdit | pkg/gnmi/server.go:215-264 | after a replace the path reads as the value with its key attributes, after an update as the one-level overlay, after a delete as nothing; a key attribute given another text reads as nothing, and its entry under the new tuple |
| TreeTheorems.EditFrame | pkg/gnmi/server.go:368-396 | diverging paths read what they read before, at any depth, except a key attribute of a created entry and an entry the edit moves (if and only if) |
| TreeTheorems.EditsInEitherOrder | pkg/gnmi/server.go:198-207 | two operations that touch nodes not on each other's way, and keep the keys, succeed in either order and mean the same tree: only list order can differ |
| TreeTheorems.EditTwiceIsOnce | pkg/gnmi/server.go:283-396 | an operation made twice is the operation made once if and only if it does not give a key attribute another text |
| TreeTheorems.DeleteNothing | pkg/gnmi/server.go:283-313 | deleting a path that reads as nothing leaves the JSON itself unchanged, also below a missing list entry |
| TreeTheorems.DeleteIsTold | pkg/gnmi/server.go:288-313 | a delete counts as done, so that the device is told, if and only if the list entry it names is there, or, for anything else, every container on the way is |
| TreeTheorems.KeysAreFixed | pkg/gnmi/server.go:229-253 | a value is refused as invalid if and only if it gives a key attribute of its entry another text than the path; one that is taken leaves every entry on the path under its keys if and only if it is not another text for a key attribute |
| TreeTheorems.CreatedEntryIsFound | pkg/gnmi/util.go:50-101 | after a search that missed, the entry appended to the list is found there again if and only if every key prints as it was given once it is stored |
| JsonHeapEdit.GetKeyedListEntry | pkg/gnmi/util.go:42-102 | in place, the returned object is the entry the lookup or the insertion of the functional tree speaks of; without create nothing changes |
| JsonHeapEdit.GetChildNode | pkg/gnmi/util.go:16-37 | in place, the descent by one element, creating a container or an entry when asked, matches the functional tree |
| JsonHeapEdit.SetPathWithAttribute | pkg/gnmi/server.go:215-244 | in place, writing a keyed entry gives the functional result or its error, and touches only objects of this tree |
| JsonHeapEdit.SetPathWithoutAttribute | pkg/gnmi/server.go:249-264 | in place, writing a member gives the functional result or its error |
| JsonHeapEdit.DeleteKeyedListEntry | pkg/gnmi/server.go:171-210 | in place, the swap with the last slot is the functional deletion, and the last entry takes the list with it |
| JsonWalk.SetPath | pkg/gnmi/server.go:368-396 | the loop down the path over mutable objects computes the functional edit of the whole tree or its error |
| JsonWalk.DeletePath | pkg/gnmi/server.go:288-308 | the deleting loop over mutable objects computes the functional delete of the whole tree |
| Transaction.FullPathJoins | pkg/gnmi/server.go:143-152 | the full path is prefix and path joined if and only if the path is not empty or there is no prefix; its origin is the path's |
| Transaction.SuccessStoresTheEdits | pkg/gnmi/server.go:566-619 | on success the stored config is valid and is the fold of all operations over the old one; on any error it is unchanged |
| Transaction.EditAllConcat | pkg/gnmi/server.go:577-600 | the fold goes through deletes, then replaces, then updates: each group starts from the result of the group before |
| Transaction.SendsValidConfigs | pkg/gnmi/server.go:315-329 | every configuration a Set sends to the device is valid, the ones sent to roll back included |
| Transaction.DeviceAgreesOnSuccess | pkg/gnmi/server.go:309-329 | after a successful Set the device holds the stored config if and only if no root delete is left that it was not told of |
| Transaction.NoRootDeleteNoDrop | pkg/gnmi/server.go:309-313 | a request without a root delete leaves none pending |
| Transaction.HeldIsLastTold | pkg/gnmi/server.go:309-334 | unless it refuses, the device ends up with the last tree the operations tell it of, known from model, config and request |
| Transaction.DeviceAgreesOnFailure | pkg/gnmi/server.go:412-425 | after Aborted device and config agree; after a refusal they do if and only if the device is told nothing, or last of the old config, before the first operation that cannot be made or gives an invalid tree |
| Transaction.RefusedLateLeavesDeviceAhead | pkg/gnmi/server.go:577-600 | an example: the first operation reaches the device, the second cannot be decoded, and the device is ahead |
| Transaction.AbortedMeansRolledBack | pkg/gnmi/server.go:317-328 | the status Aborted is answered exactly when the old config was sent again and taken |
| SetOutcomes.SetSucceeds | pkg/gnmi/server.go:566-619 | a Set succeeds if and only if there are trees from the stored config on, each made of the one before by the next operation, every told one valid and taken by the device, the last one valid; that one is stored, and the device was sent the told ones |
| SetOutcomes.SetFails | pkg/gnmi/server.go:283-430 | the first operation that cannot be made decides the status and all that is sent: its own code, Internal for an invalid tree, and for a tree the device refuses the stored config sent again with Aborted or Internal; nothing is stored |
| SetOutcomes.RefusedIsRolledBack | pkg/gnmi/server.go:412-425 | a config the device refuses is followed by the stored one and nothing else; Aborted is answered if and only if the device then took it |
| SetOutcomes.RootUpdateIsRefused | pkg/gnmi/server.go:397-400 | a request with an update of the root stores nothing, and is answered Unimplemented when it gets there |
| SetOutcomes.RootReplaceStoresTheValue | pkg/gnmi/server.go:401-411 | a replace of the root stores exactly the given object, if and only if it is valid and the device takes it |
| SetOutcomes.RootDeleteStoresNothing | pkg/gnmi/server.go:309-313 | a delete of the root stores the empty config if that is valid, and sends the device nothing |
| RequestTheorems.SetMeansFold | pkg/gnmi/server.go:566-619 | after a successful Set the stored config is well-formed and means the fold of its operations over the old one, root operations included, when each follows the schema and keeps the keys |
| RequestTheorems.AcceptableSucceeds | pkg/gnmi/server.go:566-619 | a request of acceptable operations that keep the keys, with decodable values, valid told and last trees and a device that takes everything, always succeeds and stores the fold |
| RequestTheorems.SetFrame | pkg/gnmi/server.go:566-619 | a path that parts from all nodes a Set's operations touch reads as before the Set, whether it succeeds or fails |
| Server.Server.DoDelete | pkg/gnmi/server.go:283-334 | the method on the working objects and the device is the specified delete operation |
| Server.Server.DoReplaceOrUpdate | pkg/gnmi/server.go:339-430 | the method on the working objects and the device is the specified write operation, root replacement included |
| Server.Server.Apply | pkg/gnmi/server.go:315-329 | pushing to the device and falling back to the stored config follows the specified reply, whose laws are those of SetOutcomes |
| Server.Server.Set | pkg/gnmi/server.go:566-619 | the three loops and the final swap compute the specified transaction: config, device and failure |
| Names.ParsePrintedName | cmd/oopt/sonic.go:304-331 | reading a printed interface name gives back its port and channel |
| Names.InterfaceNameInjective | cmd/oopt/main.go:499-511 | two interfaces never share a name |
| Names.NamesRead | cmd/oopt/main.go:296-320 | names as they are written: Port16, Opt8, Ethernet1, Ethernet10_4 |
| Names.BelongsToSelectsPort | cmd/oopt/main.go:464-470 | the name-or-prefix test selects exactly the interfaces of the port: Ethernet1 does not select Ethernet10 |
| Names.OptEthernetNameOf | pkg/sonic/interface.go:19-35 | channel A or B of module n sits behind port 2n - 1 or 2n, counted from 17 |
| Names.LinePortInjective | pkg/sonic/interface.go:30-34 | different module channels sit behind different ports |
| Transponder.DefaultConfiguration | cmd/oopt/main.go:296-320 | the two loops build the default configuration and never meet an existing key |
| Transponder.DefaultHolds | cmd/oopt/main.go:296-320 | the default configuration name by name: 16 ports, 16 interfaces at 100 Gb/s and MTU 1500 with nothing connected, 8 modules with nothing set, and no others |
| Transponder.DefaultIsWired | cmd/oopt/main.go:296-320 | the default configuration is wired |
| Cli.Shell.RunChannelSpeed | cmd/oopt/main.go:440-472 | the command changes the port and all its interfaces, and nothing else, or gives its error |
| Cli.Shell.RunNumChannels | cmd/oopt/main.go:478-518 | the command replaces the interfaces of one breakout mode by those of the other, or gives its error; when it does which is Commands.NumChannelsDoes |
| Cli.Shell.Run | cmd/oopt/main.go:79-104 | every command, step by step on the loaded configuration with the containers it makes, does to the file what its specification does to the file written before; one that fails leaves the file as it was |
| Cli.Shell.RunInterface | cmd/oopt/main.go:596-763 | makes the missing containers of the connection, sets the leaf, and after writing nothing is left of containers without a leaf |
| Breakout.NoDuplicates | cmd/oopt/main.go:499-516 | on a wired configuration creating interfaces never meets an existing name |
| Breakout.CommandKeepsWiring | cmd/oopt/main.go:440-733 | every command keeps the wiring |
| Breakout.RunsKeepWiring | cmd/oopt/main.go:79-104 | every session keeps the wiring, whatever commands fail |
| Breakout.EverySession | cmd/oopt/main.go:296-519 | after every session from the default: a port owns EthernetN or EthernetN_1 to N_4 by its channel number, at its speed, and no interface is ownerless |
| Commands.CommandSucceeds | cmd/oopt/main.go:440-1020 | on a wired configuration a command succeeds if and only if its argument is allowed: ids 100 to 4000, existing modules, A or B, channels 1 to 255, intervals from 5, a grid, a modulation, a speed, another breakout mode |
| Commands.NumChannelsDoes | cmd/oopt/main.go:478-518 | num-channels succeeds if and only if the number is 1 or 4 and new; the port then has exactly the interfaces of that mode, all new, and every other port, interface and module is as before |
| Commands.ChannelSpeedDoes | cmd/oopt/main.go:440-472 | channel-speed succeeds if and only if a speed is given; the port and exactly its interfaces get it |
| Validation.CalculateOccupancy | pkg/sonic/transport.go:123-181 | in any order the walk gives the load of the channel in percent, or the error for an unknown modulation, an unknown speed or a channel without capacity |
| Validation.CheckConnections | cmd/oopt/main.go:115-128 | the walk with the map of used ids accepts if and only if every connection is complete and no id is used twice |
| Validation.CheckPorts | cmd/oopt/main.go:129-156 | accepts if and only if every port has 1 channel at 40 or 100 Gb/s, 2 at 40 or 50, or 4 at 10 or 25 |
| Validation.AllowedModes | cmd/oopt/main.go:129-156 | exactly six modes are allowed, and in each a port carries 40 to 100 Gb/s in all |
| Validation.SpeedIsItsName | pkg/sonic/transport.go:146-170 | every speed counts for the digits and the unit of its name |
| Validation.CheckModules | cmd/oopt/main.go:157-173 | accepts if and only if every module can be filled and none exceeds its capacity unless it may |
| Validation.ValidateFinal | cmd/oopt/main.go:110-175 | whether validation accepts does not depend on map order, and it leaves every module filled with defaults |
| Validation.AcceptedModule | cmd/oopt/main.go:157-173 | a module is accepted if and only if speeds are known, channel B carries nothing under QPSK, and each channel at most 100000 Mb/s unless oversubscription is allowed |
| Validation.AcceptedExactly | cmd/oopt/main.go:110-175 | a configuration is accepted if and only if connections are complete, ids differ, ports are in one of six modes and every module's loads are known, carried by its modulation, and within capacity unless oversubscription is allowed |
| Validation.LoadsAddUp | pkg/sonic/transport.go:135-170 | the loads of all channels of all modules add up to the speeds of the interfaces connected to them, each counted once |
| RedisCodec.SerializeEntry | pkg/sonic/redis.go:118-140 | in any order the loop builds the serialized hash |
| RedisCodec.ReadHash | pkg/sonic/redis.go:87-96 | in any order the loop reads every field from one of its stored forms |
| RedisCodec.ReadsOnce | pkg/sonic/redis.go:87-96 | a hash that holds no field in both forms is read in one way only |
| RedisCodec.OverwriteHash | pkg/sonic/redis.go:152-172 | HMSet and the loop of HDel leave the entry over the old fields it names, without the others |
| RedisCodec.RoundTrip | pkg/sonic/redis.go:80-172 | GetEntry after SetEntry returns exactly the entry if and only if lists are non-empty and comma-free and no field changed kind; the empty entry only over an old placeholder |
| Redis.SlotsApart | pkg/sonic/redis.go:37-42 | two rows of any tables never share a database number and hash name |
| Redis.OverlaySerialized | pkg/sonic/redis.go:142-150 | HMSet of one entry over another stores the overlay |
| Redis.Client.GetEntry | pkg/sonic/redis.go:80-97 | reads exactly the row, and an empty entry for none |
| Redis.Client.ModEntry | pkg/sonic/redis.go:142-150 | the row becomes the overlay; every other row of every table is untouched |
| Redis.Client.Delete | pkg/sonic/redis.go:142-147 | only this row is removed |
| Redis.Client.SetEntry | pkg/sonic/redis.go:152-172 | the row becomes exactly the entry; every other row is untouched |
| Rebuild.AddInterface | cmd/oopt/sonic.go:303-367 | one round of the loop keeps what the interfaces done so far amount to, and fails exactly for an interface that cannot be built |
| Rebuild.NewSonicConfig | cmd/oopt/sonic.go:295-378 | success and result do not depend on the walk: ports with the lanes of DeviceView.LanesInOrder, VLANs with exactly their joining members, modes by client or far end |
| Database.WriteToConfigDB | cmd/oopt/sonic.go:263-293 | exactly the rows of the SONiC configuration are stored, each replacing the row before; no other row changes |
| Database.ConfigureTransport | pkg/sonic/transport.go:335-393 | in any order each module gets its full row with defaults, or the walk fails exactly for a module that cannot be configured |
| Wiring.RebootSystem | cmd/oopt/main.go:1085-1131 | from any old database a reboot fails exactly for configurations that cannot be booted, else leaves it in sync |
| Wiring.AcceptedIsBootable | cmd/oopt/main.go:1085-1131 | wired and accepted configurations can always be booted |
| Wiring.FilledIsTheSame | cmd/oopt/main.go:1134-1195 | booting the configuration that validation filled in memory stores what the committed one stores |
| Wiring.LanesDistinct | cmd/oopt/sonic.go:323-375 | no two ports of a rebuilt configuration share a lane, and lanes run from 1 to 96 |
| Wiring.RebuildShape | cmd/oopt/sonic.go:333-366 | a VLAN holds exactly its interface, untagged, and the port of its module channel, tagged; both are ports; there are no other VLANs or members |
| Wiring.RebuildIsUnique | cmd/oopt/sonic.go:303-367 | two rebuilds of one configuration agree as sets, without repeated members, and altogether when ids are unique |
| DeviceView.LanesInOrder | cmd/oopt/sonic.go:323-375 | the ports are the interfaces and Ethernet17 to 32; an unbroken or optical port has the lane of its number; broken-out channels take lanes from 33 on, four a port, in order |
| DeviceView.PortRow | cmd/oopt/sonic.go:323-375 | the PORT_TABLE row of every channel of every port holds its lane as text, and is there if and only if the port is |
| DeviceView.ModulePorts | pkg/sonic/interface.go:19-35 | channel A and B of module n sit behind Ethernet(2n + 15) and Ethernet(2n + 16) |
| DeviceView.ConnectionRows | cmd/oopt/sonic.go:333-366 | the three rows of a connection, as texts: the VLAN with its id and its two members, the client untagged, the module's port tagged |
| DeviceView.ModuleTexts | pkg/sonic/transport.go:335-393 | the full row of every module, text by text, defaults included: enabled reads on unless it is set to false, losi and prbs off unless set to true |
| DeviceView.HashesRead | pkg/sonic/redis.go:37-140 | the hashes rows are kept in by name and number, and how lists, scalars and the empty entry are written there |
| Changes.ComputeDiff | cmd/oopt/main.go:1185-1189 | the difference is exactly the set of changed and of deleted leaves, in some order |
| Changes.GroupTasks | cmd/oopt/main.go:206-254 | the two loops give every name its updates, then its deletes, and no name without changes a task |
| Changes.TaskIsChange | cmd/oopt/main.go:212-254 | the tasks of a name are the changes of its leaves and nothing else |
| Handlers.HandleOptDiff | pkg/sonic/transport.go:36-109 | the handler overlays the row with the entry its tasks give, or fails at the first task it cannot read |
| Handlers.HandlePortDiff | pkg/sonic/interface.go:37-49 | asks for a reboot exactly if a task is about anything but the description |
| Handlers.ReadTasks | pkg/sonic/interface.go:60-77 | the flags say whether there is a delete, else whether the id and whether any end leaf is mentioned |
| Handlers.HandleInterfaceDiff | pkg/sonic/interface.go:51-239 | on the server's hashes the handler leaves the specified rows and error, with every early return and the relabeling of the old VLAN |
| Handlers.HandleDiff | cmd/oopt/main.go:203-279 | runs the module, interface and port handlers in some order each, stopping at the first error |
| Moves.HandleIsMove | pkg/sonic/interface.go:51-239 | whatever the order of its tasks, handling an interface is the move told by its two configurations alone |
| Incremental.MemberRowAfter | pkg/sonic/interface.go:167-211 | what a move makes of every VLAN_MEMBER row |
| Incremental.VlanRowAfter | pkg/sonic/interface.go:213-238 | what a move makes of every VLAN row |
| Incremental.NoPanic | pkg/sonic/interface.go:216 | in no order does a handler meet an old VLAN without members |
| Incremental.InterfacesRunMoves | cmd/oopt/main.go:262-266 | the interface walk runs the moves and never fails |
| Convergence.SafeStep | pkg/sonic/interface.go:128-238 | a safe move takes tables in sync to tables in sync with the one interface changed |
| Convergence.AllSafe | cmd/oopt/main.go:262-266 | if every interface changes safely, every order of the walk ends with exactly the VLAN and VLAN_MEMBER tables of a rebuild |
| Divergence.Cleared | pkg/sonic/interface.go:79-81 | a cleared connection leaves its member row behind, in every order |
| Divergence.Described | pkg/sonic/interface.go:106-126 | an interface that loses its description loses its VLAN, in every order |
| Divergence.Renumbered | pkg/sonic/interface.go:187-236 | a changed id loses the far end of the new VLAN or leaves the interface in the old one, in every order |
| Divergence.OneUnsafe | pkg/sonic/interface.go:51-239 | one change that is not safe, and no order and no other change brings the tables back in sync |
| ModuleSync.AllTasks | pkg/sonic/transport.go:40-97 | the tasks fail exactly on a deleted handled leaf, else the entry holds exactly the changed leaves as a full configuration stores them |
| ModuleSync.OverlayIsFull | pkg/sonic/transport.go:36-109 | laying the entry over the old full row gives the new full row, defaults included |
| Sync.ModulesRun | cmd/oopt/main.go:256-260 | without a lost leaf the module walk never fails and brings exactly the rows of the walked modules to the new configuration |
| Sync.PortsTell | cmd/oopt/main.go:268-276 | no port name is refused, and a reboot is asked for exactly if a port's channel number or speed changed |
| Sync.HandleDiffConverges | cmd/oopt/main.go:203-279 | on a database in sync: fails exactly if a handled module leaf is unset; reboots exactly if a port changed; else is in sync with the new configuration if and only if every interface changes safely |
| Residue.OneUnsafeLeaves | pkg/sonic/interface.go:51-239 | after a commit that changes one interface unsafely, every row of the database: which of the old and new VLAN and member rows exist and what they list |
| Equivalence.SameRebuildSameLeaves | cmd/oopt/main.go:1085-1131 | two wired, accepted configurations rebuild to the same rows if and only if they have the same interfaces with the same connections and modules with the same texts |
| System.Program.constructor | cmd/oopt/main.go:322-391 | init commits and boots the default configuration, which validation accepts |
| System.Program.RunCommand | cmd/oopt/main.go:79-104 | an editing command changes the file alone, to what the command makes of it, or is refused and changes nothing |
| System.Program.CommitFile | cmd/oopt/main.go:1133-1198 | commit refuses without a trace, or logs the file and then boots it or handles the difference |
| System.Program.RollBack | cmd/oopt/main.go:1225-1258 | rollback finds the commit, makes it the file and commits it, or is refused when the log is too short |
| System.Program.RebootNow | cmd/oopt/main.go:1297-1307 | the reboot command boots the file, committed or not |
| Runs.StepKeepsLegal | cmd/oopt/main.go:1133-1258 | in every reachable state the file is wired and every logged configuration would be accepted again |
| Runs.CommitLogs | cmd/oopt/main.go:1133-1198 | a commit is refused without a trace if and only if the file is not accepted, and else makes the file the newest commit |
| Runs.RebootLoadsFile | cmd/oopt/main.go:1293-1310 | a reboot is refused if and only if the file is not accepted, and else stores what the file asks for |
| Runs.StepSync | cmd/oopt/main.go:1085-1310 | an action on a database in sync leaves it in sync without failing if and only if it is safe, which for dry commits and reboots is agreement on the leaves a rebuild stores |
| Runs.RunConverges | cmd/oopt/main.go:1085-1310 | from init on, the database equals the rebuild of the newest commit after every action, and none fails, if and only if every action is safe |
| Runs.LogsGrow | cmd/oopt/main.go:1150-1154 | over a whole run every earlier log is the tail of every later one |
| Runs.RollbackRestores | cmd/oopt/main.go:1240-1258 | a rollback within the log is never refused and makes the commit number + 1 back the newest; outside it changes nothing |
| Runs.RollbackTwice | cmd/oopt/main.go:1240-1258 | rolling back 0 twice restores the newest configuration |
| Sessions.CommandSetsLeaf | cmd/oopt/main.go:534-1020 | a command that is not about breakout gives the leaves it names their values and leaves every other leaf of the configuration as it was |
| Sessions.SavedLeaves | cmd/oopt/main.go:88-104 | writing the file, without the containers that hold no leaf, changes no leaf |
| Sessions.EditIsDone | cmd/oopt/main.go:79-104 | an editing command in a reachable state is done if and only if its argument is allowed, touches the file alone, and in it exactly what it names |
| Sessions.SessionCommit | cmd/oopt/main.go:765-1083 | no command line session unsets a handled module leaf, so the incremental commit does not fail; it converges if and only if a port changed or every interface changed safely |
| Sessions.BreakOutAccepted | cmd/oopt/main.go:129-156 | giving any port of the default a speed and breaking it out into four is accepted if and only if the speed is 10 or 25 Gb/s |
| Sessions.ClearingMisses | cmd/oopt/main.go:653-660 | an example: connect one interface, commit, clear the connection, commit; both are accepted, and in every order the second commit is done without error and misses the rebuild |
| Sessions.RollbackFails | cmd/oopt/main.go:1218-1258 | an example: set prbs of a module, commit, roll back; both configurations are accepted, and in every run the commit is done and the rollback fails |

## Left out

- gRPC, protobuf, listeners, `Get`, `Capabilities`, `Subscribe` and the gNMI client commands: plumbing over libraries.
- ygot, goyang and JSON marshalling: the schema, validity and the decoding of a value are parameters (`Transaction.Model`); conversion between trees and structs is taken as lossless.
- Concurrent Set requests: the mutex of the server is never taken, so requests are taken one at a time.
- The list of `UpdateResult` a Set returns: one per operation, in order.
- Paths in the deprecated `element` form: they never reach the edited tree.
- Leaf-lists and lists without keys: values of them are stored as they are sent, and no path leads into them.
- JsonTree.Find: looks for missing key attributes of an entry before it compares texts, one of the orders Go may take; trees in which every entry carries its keys do not tell the orders apart.
- JsonTree.Matches: an object or a list stored under a key attribute never matches, although Go could print one as the text of a key.
- Transaction.FullPath: a path with an empty but present element list is taken as an absent one, as protobuf decodes it.
- Text.Atoi: has no 64-bit range check.
- Validation.CalculateOccupancy: uses rationals where the code uses a 32-bit float and prints it with six digits; speeds are whole Mb/s and the test is a comparison with 100.
- Sync.HandleDiffConverges: is stated for wired and accepted configurations, all that init and the commands can commit; a file edited by hand is not covered.
- Pods, config maps, the OFDPA template, waiting and restart failures: a restart of Redis is an empty database.
- Changes.ComputeDiff: stands in for `ygot.Diff`, a library function: all changed and deleted leaves, in any order.
- Git: the log is a sequence of configurations, and a commit without changes is a commit like others.
- Redis networking, notifications and `GetTable`.
- `FillInterfaceState`, `FillTransportState` and the state commands: field by field copies.
- Fields of the data model that oopt never sets or reads, and the LLDP types.
- Cli.Shell.Run: the description commands with no argument only print, and the clear command of an interface description dereferences a port that does not exist; both are not commands of the model.
- JsonHeapEdit.GetKeyedListEntry: looks for missing key attributes of an entry first, like JsonTree.Find.
- JsonHeapEdit.DeleteKeyedListEntry: looks for missing key attributes of an entry first, like JsonTree.Find.
- Redis.Client.SetEntry: entries with list field "members" only, and never the empty entry, as every caller does; `RedisCodec.RoundTrip` is about all entries.
- Redis.Client.ModEntry: rows are written with list field "members" only, as every caller does; the codec itself is stated for all entries in `RedisCodec`.
