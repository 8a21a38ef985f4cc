# A verified model of the ESPHome service

The service connects a home-automation bus to ESPHome devices. It keeps a list of devices, opens one
encrypted TCP connection for every top-level device, discovers the entities of the device and of the
sub-devices behind it, gives each entity an endpoint number and an id, and writes the list to a
database that the next start reads.

The model has two layers.

* **Specification.** Pure functions give the state after every slot, command and restart. The
  theorems range over all inputs, all interleavings of events and all runs of the service:
  every discovery gives a special entity the number its name and rank have always had; a command for an
  entity goes out as a message of its kind, with the key the entity was announced with; what one side
  sends the other dispatches, however the byte stream is cut; every message that asks for an answer gets
  it, and nothing is said unasked; a device is online exactly while its connection is in session; the
  device list stays a forest that agrees with the map of connections, on exactly the hosts for which that
  can be; a connection of an active device is never stuck; a restart keeps the forest and the map of
  numbers. It does not keep the numbers of the endpoints: they go by position until the next discovery,
  and stay the same exactly when no special number exceeds the count of entities
  (`Database.RoundReloadedIff`).
* **Objects.** The classes of the source are classes here, with the same fields and the same loops:
  `ProtoEncoder` and `ProtoDecoder`, `DeviceObject` and `DeviceList`, `EspHomeDevice`,
  `EspHomeManager`, `Controller`. Every method is proved to change its object exactly as the
  specification function says, so the theorems hold of the running objects:
  `EspHomeDevice.Handle` is one `Step` of a connection, `Controller.Execute` one `Run1` of the service,
  and `Control.Serve` a whole `Run`.

| file | module | about |
|---|---|---|
| bytes.dfy, order.dfy, text.dfy | Bytes, Order, Texts | machine integers, sorted sets, text |
| proto.dfy | Proto | the wire codec |
| slots.dfy | Slots | numbers of special entities, endpoint ids |
| objectids.dfy | ObjectIds | camel-case ids |
| devices.dfy | Devices | devices, entities, one discovery round |
| database.dfy | Database | writing and reading the list |
| noise.dfy, messages.dfy, announcements.dfy | Noise, Messages, Announcements | the encrypted session, message contents, and what they say field by field |
| discovery.dfy | Discovery | the list as a value, a finished discovery |
| connection.dfy, lifecycle.dfy | Connection, Lifecycle | one connection: frames, messages, timers, events |
| forest.dfy | Forest | the two-level device forest |
| history.dfy, answers.dfy, availability.dfy, standing.dfy | History, Answers, Availabilities, Standing | invariants of one connection |
| chunks.dfy, delivery.dfy | Chunks, Delivery | independence of cutting, end-to-end delivery |
| conservation.dfy | Conservation | discovery loses and invents nothing |
| service.dfy, runs.dfy, rounds.dfy | Service, Runs, Rounds | the whole service, all its runs, and the discovery rounds they perform |
| takeover.dfy | Takeovers | the runs on which one device takes another over |
| commands.dfy, reach.dfy | Commands, Reach | which commands are sent, and that they reach the entity they are meant for |
| effects.dfy | Effects | what every operation and event does, member by member and in the service's own numbers |
| objects.dfy, client.dfy, manager.dfy, controller.dfy | Objects, Client, Manager, Control | the classes |

Assumptions about what is not modelled: the two ciphers of a session are any functions for which
decryption inverts encryption and both change the length by 16 (`Noise.Sound`); `abort` closes an open
socket at once and any other silently; a request to close is carried out at once or later, as the
event says; one event is handled at a time. Which characters are letters, their case maps, and what text
a row of bytes decodes to are constants without a value (`ObjectIds.Unicode`, `Messages.Utf8`), so every
theorem holds for all of them; assumed is only what `ObjectIds.Proper` says.

Where code and comments disagree the model follows the code:

* The comment on `camelCase` says that entities with distinct names never get a stray digit and implies
  distinct ids. "Temp", "Temp", "Temp 2" get the ids "temp", "temp2", "temp2"
  (`ObjectIds.NamesThatClash`); `ObjectIds.IdsDistinctIff` says exactly which rounds have distinct ids.
* Decoding is not total. A length prefix is cast to `int` twice, and some make the position stand still
  or step back. From an earlier position inside the buffer the source reads on: it may still end there
  (`Proto.StepBackEnds`), repeat itself for ever (`Proto.StandstillLoops`), or leave its buffer
  (`Proto.StepOutLeaves`). `Proto.DecodingIff` and `Proto.DecodeEndsIff` say exactly when it does which;
  `Proto.FieldProgressIff` and `Proto.DelimitedExactIff` are the exact conditions for one field.
* A special entity's number is called persistent, but the database does not hold endpoint numbers. With
  "A" and "B" numbered 1 and 2 and only "B" announced again, the endpoint has number 2, and number 1 after
  a restart (`Database.VanishedMoves`). `Database.NumbersReloadedIff` says exactly when all endpoints of a
  device keep their numbers, `Database.RoundReloadedIff` when they do so after a round, and
  `Rounds.ServedReloadedIff` carries this to the rounds of runs.
* A stable number is cast to eight bits when it becomes an endpoint id. The 256th becomes 0, which stands
  for a common entity, and gets a number that another name holds (`Slots.NumberTooLarge`).
  `Slots.SpecialIdIff` says when one id is right and `Slots.EndpointIdsIff` when all ids of a round are.
* A slot map with a gap, with 0 in it, or with both, which only a hand-edited database can have, loses
  stability: `Slots.GapMovesNumbers` is a concrete one. `Slots.StableIff` says of every map whether it
  gives stable numbers: exactly when 0 is not in use and no number is behind the first free one.
* A host can be taken for the address of a sub-device of another: with the hosts "a" and "a_b", an entity
  of a sub-device "b" of the first makes the second its sub-device (`Runs.UnderscoreTakenOver`).
  `Runs.TakenOverIff` says exactly which pairs of hosts allow this.
* A device that was given an empty name vanishes at the next restart and orphans its named sub-devices:
  `Runs.NamelessOrphans` is a concrete case, `Runs.RestartTreeIff` says exactly when.

`Service.Admissible` excludes exactly these last two: adding a host that forms such a pair with another
top-level host, and restarting while there is such a device. `Service.OpKeepsIff` and
`Service.RunKeepsIff` state that the invariant of the service, one clause of which is that hosts are
apart, is kept by the admissible operations and by no others. That clause is the model's own. What users
rely on is the tree of devices and a route to each of them, and an inadmissible host does not break these
at once: `Takeovers.AddStaysIntactIff` states that they survive every run of events after a device was
added exactly when its host is admissible, by constructing the run, byte for byte, on which they are lost.

## Model

| member | source | states |
|---|---|---|
| Proto.VarintRoundTrip | proto.cpp:11-77 | reading inverts writing for every 64-bit value, in front of any suffix, which it leaves untouched |
| Proto.VarintTenBytes | proto.cpp:11-19 | a 64-bit value takes at most ten bytes |
| Proto.VarintBytesShortest | proto.cpp:11-19 | among all encodings of a value the one written is the shortest, and the only one of its length |
| Proto.VarintInExtend | proto.cpp:62-77 | a varint that can be read is not changed by what comes after it |
| Proto.VarintInFront | proto.cpp:62-77 | any encoding of at most ten bytes is read as the sum of its 7-bit groups modulo 2^64 |
| Proto.TagReadBack | proto.cpp:6-9 | wire type and what the shift leaves of the field number survive the tag |
| Proto.FieldNumberKeptIff | proto.cpp:6-9 | a field number survives the 32-bit shift exactly when it fits 29 signed bits |
| Proto.DelimitedExactIff | proto.cpp:108-118 | a length-delimited read returns as many bytes as announced exactly when position and prefix stay below 2^31 |
| Proto.FieldProgressIff | proto.cpp:79-140 | a successful read moves the position forward exactly when its prefix, as an `int`, neither points behind the field nor overflows |
| Proto.DecodingIff | proto.cpp:142-150 | decoding ends inside the buffer, leaves it, or loops exactly when some read is the last one there, some read goes before the buffer, or reads succeed for ever; where it ends the fields are those read |
| Proto.DecodeEndsIff | proto.cpp:142-150 | decoding ends inside the buffer exactly when no read, of as many as there are bytes, goes before the buffer or back to a position read from before |
| Proto.FittingEnds | proto.cpp:142-150 | with prefixes below 2^31 minus the data size decoding ends inside the buffer |
| Proto.FieldProgress | proto.cpp:79-140 | with prefixes below 2^31 minus the data size the position strictly increases and stays inside the data |
| Proto.StandstillLoops | proto.cpp:108-118 | a concrete buffer on which decoding loops |
| Proto.StepOutLeaves | proto.cpp:108-118 | a concrete buffer that decoding leaves |
| Proto.StepBackEnds | proto.cpp:108-118 | a concrete buffer on which the position steps back and decoding ends all the same, with three fields |
| Proto.DecodeConcat | proto.cpp:142-150 | with fitting prefixes, decoding a concatenation cut between two fields ends with the concatenation of the decodings |
| Proto.ReadBackCall | proto.cpp:21-58 | the decoder reads back one encoder call, from any position and in front of any suffix |
| Proto.CodecRoundTrip | proto.cpp:6-150 | decoding the output of any sequence of encoder calls ends inside the buffer, with exactly their fields in order |
| Proto.WireFormat | proto.cpp:6-58 | the tag is eight times the field number plus 0, 5 or 2; words go from their lowest byte up, texts behind their length |
| Proto.ProtoEncoder.WriteVarint | proto.cpp:11-19 | the shifting loop appends the varint of its argument |
| Proto.ProtoEncoder.WriteTag | proto.cpp:6-9 | appends the tag |
| Proto.ProtoEncoder.Varint | proto.cpp:21-25 | appends the encoding of a varint call |
| Proto.ProtoEncoder.Fixed32 | proto.cpp:27-34 | appends the encoding of a 32-bit call, low byte first |
| Proto.ProtoEncoder.Bool | proto.cpp:43-46 | appends the encoding of a boolean |
| Proto.ProtoEncoder.RawBytes | proto.cpp:48-58 | appends the encoding of a string or byte string |
| Proto.ProtoDecoder.ReadVarint | proto.cpp:62-77 | the accumulating loop reads the varint at its position or fails, and moves behind it |
| Proto.ProtoDecoder.ReadField | proto.cpp:79-140 | reads the field at its position, with both wrapping casts |
| Proto.DecodeFields | proto.cpp:142-150 | the loop over fields, steps back included, gives the decoding of the data |
| Slots.FirstFitAppends | esphome.cpp:829-834 | first fit stops one behind the end of a map without gaps |
| Slots.RoundShape | esphome.cpp:805-841 | a round keeps the keys exactly 1..n, changes no entry, and uses only keys of the map |
| Slots.NthAskGetsNthNumber | esphome.cpp:809-841 | the j-th special entity of a name gets the j-th smallest number that the name holds, on every map that `Slots.StableIff` calls stable |
| Slots.SameNumberIff | esphome.cpp:809-841 | over any sequence of rounds on such a map two special entities get the same number exactly when name and rank agree |
| Slots.SameNumberLaterIff | esphome.cpp:809-841 | the same across whatever else the map has grown by in between |
| Slots.GapMovesNumbers | esphome.cpp:820-834 | with a gap in the map the number of an entity can move |
| Slots.GapMoves | esphome.cpp:820-834 | in any map without 0, a number behind a gap is lost to another entity of its rank once its name is asked for once more than it holds numbers |
| Slots.ZeroMoves | esphome.cpp:820-834 | in any map with 0, the entity of its rank gets a greater number in each of two equal rounds |
| Slots.StableIff | esphome.cpp:809-841 | any map gives stable numbers, over all sequences of rounds, exactly when 0 is not in use and no number is behind the first free one |
| Slots.SpecialIdIff | esphome.cpp:836-841 | on every map the endpoint id is the stable number exactly when that is one of 1..255 |
| Slots.NumberTooLarge | esphome.cpp:829-857 | a concrete overflow: with 1..255 taken by other names a new one gets the number 256 and the endpoint id 1 |
| Slots.EndpointIdsIff | esphome.cpp:809-857 | on every map the ids of a round are pairwise distinct, not 0, and the stable number of every special entity, exactly when the round has at most 255 entities and its numbers fit eight bits |
| Slots.FittingIds | esphome.cpp:843-857 | then the id of a common entity is at most the number of entities |
| Slots.CountsUpIff | esphome.cpp:809-857 | then the ids of a round are 1..n exactly when no special number exceeds the number of entities |
| ObjectIds.ToCamelCase | esphome.cpp:26-44 | the character loop joins the words of a text in camel case |
| ObjectIds.CamelCaseAt | esphome.cpp:26-44 | character by character: the letters and digits of the text in order, in upper case behind anything else, except for the first, and in lower case otherwise |
| ObjectIds.CamelCaseAlphanumeric | esphome.cpp:26-44 | an id base has letters and digits only |
| ObjectIds.BasesCollideIff | esphome.cpp:790-800 | two bases can give the same id exactly when one is the other followed by a number |
| ObjectIds.IdsDistinctIff | esphome.cpp:790-800 | the ids of a round are pairwise distinct exactly when no base continues another with a number that the round has entities enough to reach |
| ObjectIds.NamesThatClash | esphome.cpp:790-800 | any name twice and the same name followed by " 2" give two equal ids |
| Devices.EndpointsKeptIff | esphome.cpp:803-1065 | no endpoint overwrites another, none has number 0 and special ones have their stable numbers, exactly when the numbers of the round fit eight bits |
| Devices.EndpointsKept | esphome.cpp:803-1065 | each entity's endpoint then stands under its id, a special one under its stable number, with the key, the kind and the id of the entity, and is special exactly for a light, a cover, a climate device, a lock, or a switch of no category |
| Devices.ObjectIdIs | esphome.cpp:790-800 | an id is made of the name, or else the class, or else the kind, with a number from 2 on behind it when as many entities before have the same base |
| Devices.ObjectIdsOfRound | esphome.cpp:790-800 | ids of a round have no underscore, and are pairwise distinct exactly when no two of its bases clash |
| Objects.DeviceObject.ChooseNumber | esphome.cpp:820-834 | the search through the map and the first-fit loop find the number of the specification |
| Objects.DeviceObject.ReserveNumbers | esphome.cpp:805-841 | the first pass in place is a round on the slot map, and nothing else of the device changes |
| Objects.PackCommon | esphome.cpp:843-857 | the second pass in place gives the ids of the specification |
| Objects.ObjectIdsOf | esphome.cpp:790-800 | the running counts give every entity the id its base and rank ask for |
| Objects.DeviceObject.BuildEndpoints | esphome.cpp:859-1065 | the last loop inserts the endpoint and the options of every entity |
| Objects.DeviceObject.ApplyEntities | esphome.cpp:777-1068 | the whole function in place: slot map continued, endpoints and options rebuilt, the rest as before |
| Objects.DeviceList.ByName | device.cpp:54-68 | the first device with a name, and its index |
| Objects.DeviceList.ByHost | device.cpp:70-77 | the first device with a host |
| Database.ReloadedIff | device.cpp:79-87 | a device comes back exactly when it has a name, a host and a key |
| Database.SlotsReloaded | device.cpp:103-105 | the slot map comes back unchanged, numbers as text included |
| Database.IdentityReloaded | device.cpp:79-111 | every identity field, the parent link and the slot map come back as they were |
| Database.EndpointListReloadedIff | device.cpp:113-207 | the list of endpoints comes back, by key, type and id, exactly when all three are there for every endpoint |
| Database.EndpointsRenumbered | device.cpp:113-131 | a restart puts the complete endpoints, and no others, under their positions in the order of their numbers |
| Database.NumbersReloadedIff | device.cpp:113-131 | every endpoint keeps its number over a restart exactly when all are complete and the numbers are 1..n |
| Database.RoundReloadedIff | device.cpp:113-131 | after a discovery round that is so exactly when all endpoints are complete and no special number exceeds the number of entities |
| Database.VanishedMoves | device.cpp:113-131 | a concrete move from number 2 to 1, after another entity has vanished |
| Database.SelectReloadedIff | device.cpp:276-280 | the values of a select come back exactly when they are non-empty and free of line breaks |
| Database.TitleReloadedIff | device.cpp:113-281 | the title of an entity comes back exactly when there is one and its kind is read back, as that of a lock is not |
| Database.OptionKept | esphome.cpp:859-1065 | the options of an entity are its name, or else its id, as the title, and the values of a select, unless a later entity writes them |
| Database.MiredsIff | esphome.cpp:952-960 | there is a color temperature exactly when some light has one above 0 |
| Database.ParseDefaults | device.cpp:79-111 | what a device gets for the members its JSON does not have |
| Service.ReloadedAt | device.cpp:209-218 | the devices that come back keep their order |
| Objects.DeviceList.Serialize | device.cpp:220-308 | the loop writes every device |
| Objects.DeviceList.Unserialize | device.cpp:209-218 | the loop appends exactly the devices that can be read, in order |
| Objects.ParseDevice | device.cpp:79-111 | reads one device or nothing, as the specification says |
| Objects.SetupEndpoints | device.cpp:113-207 | the loop inserts the complete endpoints under their positions, and their options |
| Noise.FirstAnswerDecides | noise.cpp:41-85 | of any number of answers the first decides for good whether the session is complete; keys and counters are those of the start |
| Lifecycle.StepKeepsSession | esphome.cpp:160-398 | every event in every order keeps the session invariant, so that the branch for data before completion is dead |
| Lifecycle.StepNotStuck | esphome.cpp:160-287 | every event leaves the connection of an active device with a socket or with the reconnect timer armed, re-entrant closing and failing dials included |
| Lifecycle.StepTended | esphome.cpp:160-775 | every event keeps the forest, all identities and all numbers, and leaves the devices of other connections exactly as they are |
| History.StepHistory | esphome.cpp:478-503 | every command was sent after a ListEntitiesDone on the same connection, and every round applied exactly the keyed entities since the last DeviceInfoResponse |
| Answers.StepAnswers | esphome.cpp:430-538 | every event adds a history in which each HelloResponse, DeviceInfoResponse, ListEntitiesDone and DisconnectRequest has its answer right behind it, and in which these answers, announcements and rounds stand nowhere else |
| Standing.StepCurrent | esphome.cpp:499-503 | while it is subscribed, a connection's devices have the endpoints that its last round gave them |
| Announcements.AnnouncedIs | esphome.cpp:540-709 | by literal field numbers for all eleven types: key, name, sub-device, class, category, values and color temperatures are those of the last such field, and nothing is announced exactly when the key is 0 |
| Announcements.EntityMessageIff | esphome.cpp:484-497 | the eleven types, and no others, announce entities |
| Announcements.EncodedAnnounced | esphome.cpp:540-709 | whatever a peer encodes as an entity message is announced with the key, the name and the sub-device it wrote last |
| Announcements.InfoSaid | esphome.cpp:448-476 | version, model and manufacturer are the last texts 4, 6 and 12, and the sub-devices are those of fields 20, each id with its last name |
| Availabilities.StepAvail | esphome.cpp:215-371 | the device is online exactly in session; outside of it, when announcements cover the entities, no sub-device of it is online |
| Chunks.PumpTouch | esphome.cpp:289-398 | reading on after a complete read gives what reading everything at once gives, until a close |
| Chunks.Chunking | esphome.cpp:289-398 | however arbitrary bytes are cut into reads, the actions up to the first close are the same, and without a close so is the whole state |
| Chunks.PumpUnframes | esphome.cpp:293-310 | a read that closes nothing takes the complete frames off the buffer and nothing else |
| Chunks.ResidualIff | esphome.cpp:293-310 | what stays is what was behind the last complete frame, and it is the start of a frame exactly when its first byte, if any, is the indicator |
| Delivery.SendAllWrites | esphome.cpp:405-428 | sending writes exactly the sealed messages, one frame each |
| Delivery.PumpDelivers | esphome.cpp:289-398 | a receiver in step dispatches exactly the deliverable messages in order |
| Delivery.TooLongCloses | esphome.cpp:379-386 | a message too long for a frame arrives as an empty one, is never dispatched, and makes the receiver ask to close |
| Delivery.AllDeliverableIff | esphome.cpp:405-428 | all messages are deliverable exactly when none exceeds 65515 bytes and only the last asks to disconnect |
| Delivery.EndToEnd | esphome.cpp:289-428 | whatever is sent on one side, cut in any way, is dispatched on the other in order; everything exactly under the condition above |
| Conservation.GroupConcat | esphome.cpp:713-715 | a later part of the pending list comes later in every group |
| Conservation.GroupsPartition | esphome.cpp:711-739 | every pending entity is in exactly one group, no group is invented, and each group keeps the order of the list |
| Conservation.DiscoveryConserves | esphome.cpp:711-775 | the main device gets exactly its entities, each sub-device its group, and every other device is left as it was |
| Conservation.SoleCarries | esphome.cpp:711-775 | a sub-device with an address of its own gets its group applied to what was at that address before, or to a new device |
| Conservation.RenumberingHarmless | esphome.cpp:741-757 | renumbering the sub-devices on the wire leaves the same device at the address of the same name |
| Forest.TendedForest | esphome.cpp:753-775 | what a connection may do to the list keeps a forest with the same top-level devices |
| Forest.UnderHost | esphome.cpp:753-757 | in a forest a device whose address is under a top-level host is a sub-device of it |
| Service.ReloadIsParse | device.cpp:209-308 | a restart's list is the written list read again |
| Service.RouteExists | esphome.cpp:1562-1568 | every device of the list has a live connection to send its commands to |
| Commands.CommandSent | esphome.cpp:1327-1515 | subscribed, a command for an endpoint of one of the eight kinds sends one message of the type of that kind, the endpoint's key first |
| Commands.CommandDoesIff | esphome.cpp:1327-1515 | it does something in no other case |
| Commands.CommandArrives | esphome.cpp:405-428 | a peer in step, reading the bytes in any pieces, dispatches exactly this message and finds the key in it |
| Commands.SendToIs | controller.cpp:458-488 | a command on a topic goes to the first device of that name, or else host: looked up in that device, sent on its own or its parent's connection, and nothing else changes |
| Commands.SendToNobody | controller.cpp:458-488 | without such a device it does nothing |
| Reach.OnlineExactly | esphome.cpp:215-371 | in every state of a run a top-level device is online exactly while its connection is Ready, in ListEntities or in Subscribe |
| Reach.LastApplied | esphome.cpp:499-503 | a subscribed connection has applied what it had collected, and its devices have these endpoints still |
| Reach.EntityStands | esphome.cpp:711-1068 | so each entity of the last round has its endpoint, with its key and kind, whatever other connections and operations have done since |
| Reach.CommandReaches | esphome.cpp:1327-1515 | in every state of a run, a command for the number of a discovered entity is sent as a message of its kind with the key it was announced with |
| Service.RemovalExact | controller.cpp:382-423 | removal takes away the device and its sub-devices and nothing else, and keeps the order of the rest |
| Service.FirstStart | device.cpp:27-39 | the invariant of the service holds when it starts with an empty database |
| Effects.AddIsIff | controller.cpp:337-380 | a device is added exactly when the host is given and new and the key has 32 bytes |
| Effects.AddedIs | controller.cpp:337-380 | with the name, or else the host, the port, the key and the flags given; it is active and dialled |
| Effects.UpdateIs | controller.cpp:425-445 | an update sets the members given, of the device named, and nothing else |
| Effects.UpdateNobody | controller.cpp:425-445 | without such a device it does nothing |
| Effects.RemoveIs | controller.cpp:382-423 | of the list exactly the device named and those whose parent it is go, and of the connections its own |
| Effects.RestartIs | device.cpp:209-218 | every top-level device that comes back is dialled on a new connection, and no other |
| Effects.MainIs | esphome.cpp:711-739 | a discovery gives the main device the endpoints of its entities and leaves its other members alone |
| Effects.SubDeviceIs | esphome.cpp:741-775 | a sub-device stands at host, underscore and name, online, under its name, described as part of its parent, with the endpoints of its entities; a new one has its parent's port, key and flag, and an old one keeps its own |
| Effects.ConnectsIs | esphome.cpp:182-213 | the bytes of the greeting, the state and the timers of a new connection |
| Effects.FailsIs | esphome.cpp:246-254 | an error arms the reconnect timer of an active device and does nothing else |
| Effects.DropsIs | esphome.cpp:215-244 | a lost connection forgets session and buffer, stops its timers, and takes exactly its device and the announced sub-devices offline if there was a session |
| Effects.HandshakeTimerIs | esphome.cpp:273-287 | a handshake that takes too long does the same |
| Effects.PingIs | esphome.cpp:256-260 | a ping goes out exactly in states Ready and Subscribe |
| Effects.ReconnectTimerIs | esphome.cpp:262-271 | the timer drops what there is and dials, if the device is active |
| Effects.CloseIs | esphome.cpp:289-310 | a request to close is carried out at once or put off once more |
| Effects.TeardownIs | esphome.cpp:173-180 | tearing down leaves every device as it is and asks an open socket to close |
| Effects.GreetingIs | esphome.cpp:312-338 | a device that goes by its address takes the name in the greeting, if there is one, and the handshake begins |
| Effects.RejectedIs | esphome.cpp:312-352 | anything but a greeting, or an answer the keys do not accept, makes the slot ask to close |
| Effects.AcceptedIs | esphome.cpp:354-371 | an accepted answer: session complete, device online, timers, and a hello with name and version |
| Effects.SealedIs | esphome.cpp:372-396 | a decrypted text is two bytes of type, two of size, and what there is of the payload |
| Effects.UnreadableIs | esphome.cpp:379-389 | a text that cannot be decrypted makes the slot ask to close, and one of one to three bytes is skipped |
| Effects.BadIndicatorIs | esphome.cpp:293-310 | so does a buffer that does not begin with the indicator |
| Effects.InfoIs | esphome.cpp:448-482 | version, model and manufacturer are taken over where given, and a new list begins |
| Effects.EntityIs | esphome.cpp:484-497 | an announced entity waits behind those before |
| Effects.DoneIs | esphome.cpp:499-503 | the end of the list applies what waits, subscribes, and asks for states |
| Effects.OtherIs | esphome.cpp:505-538 | other messages change nothing kept here |
| Service.AddKeeps | controller.cpp:337-380 | adding a device whose host is apart from the others keeps the invariant of the service |
| Service.RemoveKeeps | controller.cpp:382-423 | removing a device and its connection keeps the invariant |
| Service.UpdateKeeps | controller.cpp:425-445 | updating a device keeps the invariant |
| Service.RestartKeeps | device.cpp:209-218 | a restart that orphans nothing restores the invariant from the database alone |
| Service.EventKeeps | esphome.cpp:160-775 | an event of one connection keeps the invariant, that of all other connections included |
| Service.OpKeepsIff | controller.cpp:322-488 | an operation keeps the invariant exactly when it is admissible in the state it comes in |
| Service.RunKeepsIff | controller.cpp:322-488 | the invariant holds all along a run exactly when every operation of it is admissible |
| Service.RunKeeps | controller.cpp:322-488 | in every state of every admissible run hosts are distinct, sub-devices hang on top-level devices, and the connection map is exactly those |
| Takeovers.AddStaysIntactIff | controller.cpp:337-380 | of an active service: the tree of devices and the routes to them survive every run of events after a device was added exactly when its host is apart from those of the other top-level devices |
| Takeovers.TakeoverTakes | esphome.cpp:160-775 | from any state of the connection of an active device there are events, ending with the frames of a whole session, that make the device at any address it can announce its sub-device |
| Runs.NeverStuck | esphome.cpp:160-287 | over whole runs a connection whose device stays active can always go on |
| Runs.OpExtends | esphome.cpp:805-841 | no operation changes a number of a device it leaves in the list |
| Runs.RunExtends | esphome.cpp:805-841 | nor does any run |
| Runs.NumbersStable | esphome.cpp:741-841 | any round that could follow a run, restarts included, gives two special entities of a device the same number as an earlier one exactly when name and rank agree |
| Rounds.StepChained | esphome.cpp:499-503 | the lists before and after the rounds of an event, of which one read may hold several, follow from each other by growth only |
| Rounds.ServedRound | esphome.cpp:711-775 | a device that a round serves has been through exactly one allocation, on the slot map it had in the list before |
| Rounds.RoundsNumbered | esphome.cpp:711-841 | of any two rounds a run performs on a device that stays in the list, special entities get the same number exactly when name and rank agree |
| Rounds.RoundsStable | esphome.cpp:711-865 | and while the numbers of the two rounds fit eight bits, they have their endpoints under the same id exactly then, each with its entity's key, kind and id |
| Rounds.ServedReloadedIff | device.cpp:113-131 | after a round performed in a run, all endpoints of the device keep their numbers over a restart exactly when they are complete and no special number exceeds the number of entities |
| Runs.GroupSparesTopsIff | esphome.cpp:753-775 | a discovered sub-device leaves the top-level devices alone exactly when its address is not one of theirs |
| Runs.TakenOverIff | esphome.cpp:711-775 | a top-level device can be taken over by some discovery of another, with keyed entities, exactly when its host is the address of a possible sub-device of the other |
| Runs.UnderscoreTakenOver | esphome.cpp:711-775 | concrete hosts, and a discovery with one entity, for which that happens |
| Runs.RestartTreeIff | device.cpp:79-111 | a restart leaves no orphans exactly when no nameless device has a named sub-device |
| Runs.NamelessOrphans | device.cpp:79-111 | a concrete list that a restart orphans |
| Client.EspHomeDevice.constructor | esphome.cpp:130-153 | a new connection is disconnected, with no timer armed |
| Client.EspHomeDevice.ConnectToDevice | esphome.cpp:160-171 | dials from state Disconnected only; a dial that fails at once arms the reconnect timer of an active device |
| Client.EspHomeDevice.DisconnectFromDevice | esphome.cpp:173-180 | state and timers are reset, an open socket is asked to close, and every device is left as it was |
| Client.EspHomeDevice.OnConnected | esphome.cpp:182-213 | in place, the slot of the specification |
| Client.EspHomeDevice.OnDisconnected | esphome.cpp:215-244 | in place, with the loop over the sub-devices known by name |
| Client.EspHomeDevice.KnownOffline | esphome.cpp:1287-1299 | exactly the devices at the addresses of the announced names go offline |
| Client.EspHomeDevice.OnError | esphome.cpp:246-254 | arms the reconnect timer of an active device |
| Client.EspHomeDevice.OnPingTimer | esphome.cpp:256-260 | in place, the slot of the specification |
| Client.EspHomeDevice.OnReconnectTimer | esphome.cpp:262-271 | in place, with `abort` re-entering `onDisconnected` before the timer is stopped |
| Client.EspHomeDevice.Abort | esphome.cpp:273-287 | closes an open socket at once, any other silently |
| Client.EspHomeDevice.OnReadyRead | esphome.cpp:289-398 | the loop over the buffer in place ends in the state of the recursive specification |
| Client.EspHomeDevice.OnServerHello | esphome.cpp:312-338 | in place, with the adoption of the server's name |
| Client.EspHomeDevice.OnHandshakeAnswer | esphome.cpp:339-371 | in place; the device is online only after a complete handshake |
| Client.EspHomeDevice.OnSealedFrame | esphome.cpp:372-396 | in place, with the failure and the short text told apart |
| Client.EspHomeDevice.SendMessage | esphome.cpp:405-428 | writes one frame on a complete session, nothing otherwise |
| Client.EspHomeDevice.ProcessMessage | esphome.cpp:430-538 | in place, message by message |
| Client.EspHomeDevice.OnDeviceInfo | esphome.cpp:448-482 | the loops over fields and nested fields take over versions and sub-device names, and a new list begins |
| Client.EspHomeDevice.ProcessEntityInfo | esphome.cpp:540-709 | the loop over fields announces an entity unless its key is 0 |
| Client.EspHomeDevice.ApplyDiscoveredEntities | esphome.cpp:711-739 | grouping and the loop over groups in place end in the list of the specification, and the list keeps its objects |
| Client.GroupEntities | esphome.cpp:713-715 | the grouping loop gives every id exactly its entities, in order |
| Client.EspHomeDevice.SubDevice | esphome.cpp:753-775 | finds the device at the address of the name, or appends a new one; then renews it |
| Client.EspHomeDevice.SendCommand | esphome.cpp:1327-1515 | in place: in state Subscribe, for an endpoint the device has, the message of its kind with its key |
| Client.EspHomeDevice.Handle | esphome.cpp:140-153 | any event in place is one step of the specification, and the list keeps its objects |
| Manager.EspHomeManager.ConnectAll | esphome.cpp:1525-1534 | the loop gives every top-level device its connection and no other |
| Manager.EspHomeManager.ConnectDevice | esphome.cpp:1536-1548 | one new connection for a top-level device without one, the others as before |
| Manager.EspHomeManager.DisconnectDevice | esphome.cpp:1550-1560 | the connection of the device goes, devices and other connections stay as they were |
| Manager.EspHomeManager.SendCommand | esphome.cpp:1562-1568 | a command goes to the device's own connection or its parent's |
| Manager.EspHomeManager.Happens | esphome.cpp:140-153 | an event of one connection leaves the state of all others alone |
| Control.Controller.constructor | device.cpp:209-218 | a start reads the database and connects every top-level device |
| Control.Controller.AddDevice | controller.cpp:337-380 | in place, one step of the service |
| Control.Controller.RemoveSubs | controller.cpp:396-408 | the downward loop removes the sub-devices although removals shift indices |
| Control.RemovalIs | controller.cpp:396-415 | removing at the recomputed index gives exactly the survivors |
| Control.Controller.RemoveDevice | controller.cpp:382-423 | in place, one step of the service |
| Control.Controller.UpdateDevice | controller.cpp:425-445 | in place, one step of the service |
| Control.Controller.SendTo | controller.cpp:458-488 | a command on a device's topic is one step of the service |
| Control.Controller.Execute | controller.cpp:322-488 | every operation in place is one step of the service, and keeps its invariant exactly when it is admissible |
| Control.Serve | controller.cpp:322-488 | a whole run of admissible operations and restarts on the objects ends in the state of the specified run, with the invariant |
| Control.Controller.Restarted | device.cpp:209-308 | writing the list and starting from what was written is the service's restart, and keeps its invariant exactly when it orphans nothing |

## Left out

- `mqttSafe` is not part of this model; it is taken as the identity, so that address and host of a device are the same text.
- ObjectIds.ToCamelCase: for any letter classes and case maps, but character by character; a character outside the basic plane is one character here and two in the source, neither of which is a letter there.
- Devices.ObjectIdsOfRound: the same holds of the bases it speaks of.
- Proto.DecodeFields: where the source's loop does not end, or reads before its buffer, the fields are those read until then; the slots that called it go on with them in the model, while the source never returns or its behaviour is undefined.
- Floating-point values are bit patterns; no identity of rounded values is claimed, and NaN counts as not positive.
- Noise cryptography is abstract: a key pair decides which answers it accepts and gives two ciphers. Encryption fails for texts above the maximum message and at the reserved last nonce; `m_noiseHandshakeState` is written but never read and is not modelled.
- Sockets and timers are events; how often `disconnectFromHost` is put off is part of the event of a read. Intervals are not modelled, and there is no claim about a peer that stays silent after the handshake.
- State updates, their normalisation and `findEndpointByKey` (esphome.cpp:1070-1285, 1301-1325): values of entities are not modelled.
- `updateLastSeen` of devices on messages, the signals that publish changes, MQTT topics, Home Assistant discovery, icons, titles and the web interface.
- Client.EspHomeDevice.SendCommand: what the action and its value add behind the key is given as encoder calls; the tables that make them (esphome.cpp:1355-1515) are not modelled. So for Commands.CommandSent and Reach.CommandReaches.
- Reach.EntityStands: for rounds whose numbers fit eight bits, and sub-devices whose address no other id of the round has.
- Objects.DeviceObject.BuildEndpoints: options keep titles, value lists and the presence of a mireds range; capability lists, units, icons, the per-endpoint keys (`switch_<id>`, `light_<id>`, ...) and the climate entries are not modelled. They are tables over the entity's own fields that no other property here depends on.
- Objects.DeviceObject.ApplyEntities: the same options and metadata are not modelled.
- Objects.SetupEndpoints: the same options and metadata are not modelled.
- Client.EspHomeDevice.ProcessEntityInfo: the fields behind them (icon, unit, decimals, ranges, capability lists) are not read.
- Client.EspHomeDevice.ProcessMessage: state updates, and the time stamps a ping response renews, are not modelled.
- Control.Controller.SendTo: one command with its endpoint; the loop over the members of the JSON object, and the choice of the endpoint by its id, are not modelled.
- Objects.DeviceList.Serialize: the JSON of an endpoint has key, type, id, name, value list and mireds; JSON text, base64 and the file are library code, and numbers in it are exact. The members of one object are given by a function instead of a row of inserts.
- Database.EndpointListReloadedIff: speaks of the list in the order of the numbers; the numbers are those of Database.EndpointsRenumbered. The "special" mark is absent until the next discovery.
- Database.NumbersReloadedIff: for up to 255 endpoints; only the map with all 256 numbers has more. So for Database.EndpointsRenumbered.
- Availabilities.StepAvail: for histories with one DeviceInfoResponse on each connection whose names cover every entity's device id; explicit removal tears a connection down without touching availability.
- Service.AddKeeps: for hosts that are apart. That other hosts lose the invariant is Service.OpKeepsIff, and that they lose the tree or a route Takeovers.AddStaysIntactIff.
- Service.RestartKeeps: for lists without a nameless device that has a named sub-device; that any other list loses its tree is Runs.RestartTreeIff.
- Service.RunKeeps: for admissible runs. That the invariant is lost on every other run is Service.RunKeepsIff; its clause on names is exact for a single restart.
- Takeovers.AddStaysIntactIff: for devices that are active, connections that are not stuck, and hosts whose parts can be spelled in 61440 bytes.
- Control.Serve: for admissible runs, the states in which the removal loop takes no device of a connection.
- Lifecycle.StepNotStuck: for devices that are active; the source does not reconnect a device that is activated later.
- Runs.NumbersStable: speaks of a device while it is in the list, and of a round that could be applied after an operation; those applied in the middle of one are in Rounds.RoundsNumbered. Removing a device and adding it again starts a new numbering.
- Rounds.RoundsStable: leaves out sub-devices whose address two ids of one round share, and rounds whose numbers do not fit eight bits; for those see Slots.EndpointIdsIff.
- Control.Controller.constructor: for a database whose devices have distinct hosts, which is what the service writes; of two devices with one host the source connects one and finds the first.
- Chunks.Chunking: compares actions up to the first request to close; what a socket that is closing still delivers is not compared.
