# MeeCore verification

MeeCore is a small framework for embedded programs. This project models five of its parts and the way
they work together, and proves properties of the model for all inputs and all runs:

* the byte stream with its receive state machine, sticky overflow bit and status-reporting writes
  (`Stream.dfy`, `Framing.dfy`, `Overflow.dfy`, `StreamDevice.dfy`);
* the command console that tokenizes, resolves, executes and answers a line of text
  (`Text.dfy`, `Commands.dfy`, `ConsoleDevice.dfy`, `Meaning.dfy`, `CommandLaws.dfy`, `Frames.dfy`,
  `LineLaws.dfy`, `EndToEnd.dfy`);
* composite systems, which route 8-bit ids through trees of drivers by running subtraction, behind the
  guarded `mc_sys_*` interface, with the analog and digital leaf systems
  (`System.dfy`, `Dispatch.dfy`, `SystemCore.dfy`, `Handlers.dfy`, `LeafModules.dfy`, `LeafDevices.dfy`,
  `DeviceTree.dfy`);
* the intrusive doubly linked list and the event dispatcher over it (`LinkedList.dfy`, `Event.dfy`);
* the keyed resource pool (`Resource.dfy`).

Objects whose functions update them in place are classes, and their methods are proved equal to
specification functions over values; the theorems are about those functions and about whole runs of them.

## Main results

* **End to end.** Commands printed as `s<i>.x<j> = v`, `s<i>.x<j>`, `s<i>.y<j>` or `s<i>.f<j>(a,b,...)` and
  sent as lines, in any fragmentation, make the console perform exactly those operations, once each and in
  order (`EndToEnd.CommandsRunOnceInOrder`). Over a driver that reports no error and a sink with room, the
  bytes sent back decode to exactly the commands with the results of their operations
  (`EndToEnd.RepliesTellResults`).
* **What a line does.** A line by number or by alias does to the system exactly the one write, read or call it
  names, and answers 0, the value, or the error (`Meaning.RenderedCommandRuns`, `CommandLaws.AliasLine` with
  `InputRuns`, `OutputRuns` and `FunctionRuns`). On the shipped leaves this comes down to what is seen: after
  `s<i>.x<j> = v` the line `s<i>.x<j>` answers v or its truth value, and the other inputs answer as before
  (`LineLaws.WriteThenReadLines`); a switch that was turned on by its alias shows 1
  (`CommandLaws.SwitchThenShow`).
* **Fragmentation independence.** The messages delivered depend on the bytes only
  (`Framing.FragmentationIndependence`). The overflow flag does not share this property in general: it is
  independent of the fragmentation if and only if the buffer holds nothing, the unfinished line is too long,
  or the last completed non-empty line is not (`Overflow.OverflowIndependentIff`);
  `Framing.OverflowDependsOnFragmentation` gives an input.
* **Routing.** Running subtraction over a tree of any depth is prefix-sum lookup over its leaves
  (`Systems.RoutingIsPrefixSumLookup`), so nesting is invisible (`Dispatch.Flattening`); guard and router
  agree if and only if the sum over the children fits in 8 bits (`Systems.GuardAgreesIffBounded`).
* **Dispatch.** A handler gets its owner's context, the member's own number, and the value or arguments, and
  no other context changes (`Handlers.WriteCalls` and its companions). On trees of register banks, where every
  number counts, a write changes one register and nothing else (`Handlers.BankReadAfterWrite`).
* **Aliases.** Rebased alias ids lead back to the leaf that owns the alias, if and only if that leaf has the
  member it names (`Dispatch.AliasCoherence`), and the shipped leaf systems always do
  (`LeafModules.AliasClosure`).
* **Dispatch under mutation.** A trigger always ends; it makes the promised calls if and only if no callback
  removes its stored successor while something is left to call (`Events.WalkIsPromisedIffSuccessorSafe`).
  Callbacks that remove at most themselves, which is what `include/mc/list.h:41` and `src/core/event.c:38-40`
  announce, are always safe (`Events.SelfRemovalIsSafe`); `Events.SuccessorRemovalMisleads` gives a case
  beyond that promise in which a listener is lost.
* **Resource pool.** Every run, results included, is the run of an abstract machine over bounded one-to-one
  partial maps (`Resource.Execute`, `Resource.MapStepKeeps`).

## Where the code and its documentation differ

`include/mc/communication/stream.h:124` says that reading the status clears the sticky overflow flag; the
code at `src/core/communication/stream.c:175-182` only returns it. The model follows the code. The flag is
clear after a reading if and only if it was clear before, and exactly then announcement and code agree
(`Streams.ReadingKeepsFlag`, with an input in `Streams.ReadingKeepsSetFlag`).

## Reading the model

* A `char *` into a command is the suffix it points at; the end of the string is the end of the suffix.
* A `void *ctx` is an address in one memory of contexts (`mem`), and a driver is a record of optional
  handlers, `None` standing for a NULL function pointer. A composite driver is a tree node over its children.
* `mc_status_t` is an `int32`, because drivers may return any integer cast to it.
* Two local variables that the console leaves uninitialized on some paths are parameters of the model:
  `unset` (the result of a command whose type is unknown) and `blank` (the alias record of the help page).
* A stream driver is unread input, a sink with finite room, and a status register. `write_char` fails exactly
  when the room is used up.
* The status byte is a record of its five defined bits.
* The first condition at `src/core/system/console.c:47` is never true for a first character; what rejects a
  wrong letter, in the code and in the model, is the `default` case further down.

## Model

| member | source | states |
|---|---|---|
| Basics.StatusNumbers | include/mc/status.h:9-21 | the numbers of the status codes |
| Text.CStrTerminated | src/core/communication/stream.c:128 | the buffer, terminated by NUL, is read as exactly the stored text |
| Text.TokenLenSplits | src/core/system/console.c:35-42 | a token is the maximal run of non-delimiters at the pointer |
| Text.DelimitersExactly | src/core/system/console.c:15-22 | the delimiters are the white space of the C locale and `.,()=`, the digits are 0 to 9 |
| Text.TokensAreSolid | src/core/system/console.c:15-42 | every token is non-empty and free of delimiters |
| Text.TokensSplit | src/core/system/console.c:15-42 | text on the two sides of a delimiter run is tokenized independently |
| Text.NoiseInvariance | src/core/system/console.c:24-42 | replacing a delimiter run by another, or changing leading or trailing ones, keeps the token list |
| Text.StrtolNumeral | src/core/system/console.c:432 | scanning a printed 32-bit number gives the number back and stops right behind it |
| Text.StrtolLocal | src/core/system/console.c:357 | number scanning never looks past the end of a token |
| Text.StrtolScans | src/core/system/console.c:432 | white space, a sign and digits are scanned to the last digit, with the value saturated |
| Text.StrtolRejects | src/core/system/console.c:433 | where no digit follows the white space and the sign, nothing is scanned |
| Text.SaturateIsNearest | src/core/system/console.c:424-440 | a number outside the 32-bit range becomes the nearest end of it |
| Text.NumeralLength | src/core/system/console.c:157 | a printed 32-bit number has at most 11 characters |
| LinkedList.List.Append | src/core/list.c:12-33 | the node becomes the last one; head, tail, count and all links agree with the sequence |
| LinkedList.List.Prepend | src/core/list.c:35-56 | the node becomes the first one; head, tail, count and all links agree |
| LinkedList.List.Remove | src/core/list.c:58-109 | exactly that node leaves the sequence and is detached; removing a detached node changes nothing |
| LinkedList.List.PopHead | src/core/list.c:111-120 | returns and detaches the first node, or null on an empty list |
| LinkedList.List.PopTail | src/core/list.c:122-131 | returns and detaches the last node, or null on an empty list |
| LinkedList.List.Forward | include/mc/list.h:38-39 | the forward loop meets exactly the nodes, in order |
| LinkedList.List.Backward | src/core/list.c:154-161 | the backward walk meets the reverse of the forward one |
| LinkedList.ReversedAt | src/core/list.c:154-161 | the reversed sequence has at each place the node as far from the other end |
| LinkedList.MinusAt | src/core/list.c:68-101 | in a duplicate-free list, bridging over position k removes that one element and keeps the order |
| LinkedList.Execute | src/core/list.c:12-131 | every run of list operations over a pool of nodes refines the same run over a sequence, including the nodes the pops return |
| Events.Event.Register | src/core/event.c:18-23 | the callback becomes the last listener |
| Events.Event.Unregister | src/core/event.c:25-30 | exactly that callback leaves the list |
| Events.Event.Trigger | src/core/event.c:32-53 | ends whatever the callbacks remove; makes exactly the calls of the walk; the final list is the initial one minus what the callbacks that ran removed |
| Events.WalkIsPromisedIffSuccessorSafe | include/mc/list.h:41-45 | the calls are the promised ones if and only if no running callback removes its stored successor while something is left to call |
| Events.SelfRemovalIsSafe | src/core/event.c:38-40 | callbacks that unregister at most themselves never disturb the calls |
| Events.SuccessorRemovalMisleads | include/mc/list.h:42-45 | a callback that unregisters its successor makes the loop call that successor and lose the next listener |
| Events.PromisedExactly | src/core/event.c:38-52 | a listener is called if and only if it is registered with a function and no earlier called listener removes it |
| Events.PromisedInOrder | src/core/event.c:41-52 | calls follow registration order, and none is repeated |
| Events.Event.Call | src/core/event.c:47-51 | a callback that runs removes exactly what it unregisters |
| Events.RemovedByRun | src/core/event.c:41-52 | what a trigger removes is what some callback that ran, with a function, unregisters |
| Resource.Manager.Get | src/core/resource.c:29-40 | returns the binding of the key, or nothing |
| Resource.Manager.Acquire | src/core/resource.c:5-27 | returns the existing binding or binds the lowest free slot; nothing, with no change, exactly when the key is absent and every slot is busy |
| Resource.Manager.Release | src/core/resource.c:42-53 | removes the binding to that resource and no other |
| Resource.Manager.ReleaseKey | src/core/resource.c:55-66 | removes the binding of that key and no other |
| Resource.BindingsInjective | include/mc/resource.h:36-43 | active keys hold distinct resources |
| Resource.BindingsBounded | src/core/resource.c:25-26 | there are never more active keys than slots, and as many exactly when all slots are busy |
| Resource.ClaimBinds | src/core/resource.c:15-23 | claiming a free slot adds one binding, to a resource no other key holds |
| Resource.FreeUnbinds | src/core/resource.c:47-51 | freeing a slot removes its binding and leaves all others alone |
| Resource.LowestIsFirstFree | src/core/resource.c:15-23 | the lowest free slot holds the first resource that no active key holds |
| Resource.MapStepKeeps | include/mc/resource.h:36-52 | the abstract machine stays one-to-one, binds an acquired key to what it returns, returns nothing exactly when the key is absent and all resources are in use, and leaves other keys alone |
| Resource.Execute | src/core/resource.c:5-66 | every run is the run of the abstract machine over partial maps, including what each acquire returns; the resources of the slots never change |
| Streams.SendAllReady | src/core/communication/stream.c:86-105 | when the converted status is OK, a list of writes goes out completely, cut only by the room in the sink |
| Streams.StatusCodes | src/core/communication/stream.c:13-32 | which code each status bit gives: error first, then no response, busy, overflow, and success exactly for none |
| Streams.WriteReports | src/core/communication/stream.c:86-105 | a write sends what the sink takes, whatever it reports; it reports success if and only if the driver can write and neither the driver nor the stored overflow bit reports anything |
| Streams.ReadyIff | src/core/communication/stream.c:103-104 | the frame theorems' condition is exactly that |
| Streams.PrintfCuts | src/core/communication/stream.c:75-82 | formatted output is cut to one character less than the transmit buffer |
| Streams.SendAllNotReady | src/core/communication/stream.c:103-104 | when it is not, as with a set overflow bit, only the first write of a list is attempted |
| Streams.SendAllKeepsOverflow | src/core/communication/stream.c:35-40 | writes never change the overflow bit of a driver that does not report it |
| Streams.BytesAccounted | src/core/communication/stream.c:119-151 | every byte read is stored, dropped or a consumed delimiter, and reading makes progress |
| Streams.BinaryReceive | src/core/communication/stream.c:132-150 | binary mode reads all input, keeps what fits, and delivers exactly when it read something |
| Streams.OverflowBit | src/core/communication/stream.c:160-171 | after a dispatching update the stored bit says whether a byte was dropped in that call; any other update never clears it |
| Streams.UpdateReports | src/core/communication/stream.c:107-173 | an update that can read reports success exactly when the final link has nothing to report, else the code of the first bit set; one that cannot read does nothing |
| Streams.CallbackSees | src/core/communication/stream.c:142-161 | the callback is handed the buffer and already sees the overflow bit of the same call |
| Streams.BreaksExactly | src/core/communication/stream.c:121 | a line ends at a newline or a carriage return |
| Streams.ReadingKeepsFlag | src/core/communication/stream.c:175-182 | reading the status leaves the sticky flag as it was, which agrees with the announced clearing exactly when it was clear |
| StreamDevice.Stream.GetStatus | src/core/communication/stream.c:175-182 | returns the stored status and changes nothing |
| StreamDevice.Stream.UpdateStatus | src/core/communication/stream.c:35-40 | the driver status, with the overflow bit kept |
| StreamDevice.Stream.Write | src/core/communication/stream.c:86-105 | sends the longest prefix the sink takes and returns the converted stored status |
| StreamDevice.Stream.Printf | src/core/communication/stream.c:66-84 | writes the text cut to the transmit buffer, and nothing for an empty text |
| StreamDevice.Stream.ReceiveLoop | src/core/communication/stream.c:116-151 | the read loop with its buffer, index and status refines the receive function, and terminates a finished line |
| StreamDevice.Stream.Finish | src/core/communication/stream.c:160-172 | clears the overflow bit only if it was set before and this call dropped nothing |
| StreamDevice.Stream.Update | src/core/communication/stream.c:107-173 | one update refines the update function, for any callbacks given by their effect |
| Framing.LinesSnoc | src/core/communication/stream.c:121-135 | one more byte completes the unfinished line or extends it |
| Framing.ReceiveFrames | src/core/communication/stream.c:119-151 | one read loop delivers exactly the message that its consumed bytes complete, and keeps the cut unfinished line |
| Framing.RunFrames | src/core/communication/stream.c:107-173 | from any reachable state, a run delivers exactly the messages its consumed bytes add |
| Framing.FragmentationIndependence | src/core/communication/stream.c:107-173 | after any run the deliveries are a prefix of the pure split of the history, and all of it once the input is drained |
| Framing.PollsDrain | src/core/communication/stream.c:119 | as many updates as there are unread bytes drain the input |
| Framing.EnoughPolls | src/core/communication/stream.c:107-173 | after any run, one more update for every byte that ever arrived drains the input |
| Framing.OverflowDependsOnFragmentation | src/core/communication/stream.c:163-168 | an input for which the overflow bit ends set or clear, depending on how the bytes are split |
| Framing.JoinedLines | src/core/communication/stream.c:121-131 | lines ended by newlines split back into exactly those lines |
| Overflow.DropsTell | src/core/communication/stream.c:119-151 | what the bytes dropped by one read loop say about the length of the lines |
| Overflow.RunTells | src/core/communication/stream.c:107-173 | in every run the flag is set while the unfinished line is too long, and set only if that line or the last completed one is |
| Overflow.AtOnceFlag | src/core/communication/stream.c:107-173 | when everything arrives at once, the flag says exactly that the unfinished or the last completed line is too long |
| Overflow.PausedFlag | src/core/communication/stream.c:154-168 | when the last completed line is read in one call and ended in the next, the flag ends clear |
| Overflow.OverflowIndependentIff | src/core/communication/stream.c:107-173 | all runs over the same bytes end with the same flag if and only if the buffer holds nothing, the unfinished line is too long, or the last completed non-empty line is not |
| Systems.CountWraps | src/core/system/composite.c:243-309 | a reported count is the true number of members modulo 256, at any depth |
| Systems.LocateDomain | src/core/system/composite.c:56-74 | an id is routed to a leaf exactly when it is below the sum of the children's counts |
| Systems.Locate | src/core/system/composite.c:43-74 | the leaf reached always has more members than the local id it is given |
| Systems.GuardAgreesIffBounded | src/core/system/core.c:55-58 | guard and router agree on all ids if and only if the sum of the counts fits in 8 bits |
| Systems.OwnerUnique | src/core/system/composite.c:55-71 | at most one leaf owns an id, at one local id |
| Systems.RoutingIsPrefixSumLookup | src/core/system/composite.c:37-176 | routing reaches a leaf if and only if the leaf's prefix-sum interval holds the id, and fails if and only if the id is at least the true total |
| Systems.FlatteningKeepsRouting | src/core/system/composite.c:37-176 | a tree routes like the flat composite whose children are its leaves in order |
| Dispatch.AliasIsRebasedLeafAlias | src/core/system/composite.c:178-240 | a tree's alias is its leaf's alias, rebased by the members before that leaf modulo 256, however deep the nesting |
| Dispatch.AliasCoherence | src/core/system/composite.c:198-236 | dispatching a rebased alias id reaches the alias's own leaf and member if and only if the leaf has that member |
| Dispatch.Flattening | src/core/system/composite.c:37-240 | a tree and the flat composite over its leaves give the same results and effects for all operations |
| SystemCore.GuardedMeansOwner | src/core/system/core.c:25-90 | through the guards exactly the owner of an id is asked, below its own count, and exactly the other ids are rejected |
| SystemCore.DriverCount | src/core/system/composite.c:243-309 | the wrapping sum over the children, or the driver's own counter, or 0 |
| SystemCore.CompositeWrite | src/core/system/composite.c:37-75 | the loop performs the write of the leaf routing reaches, and changes nothing for other ids |
| SystemCore.CompositeRead | src/core/system/composite.c:77-143 | the two read loops return what the leaf routing reaches returns |
| SystemCore.CompositeInvoke | src/core/system/composite.c:145-176 | the loop performs the call on the leaf routing reaches |
| SystemCore.CompositeAlias | src/core/system/composite.c:178-240 | the loop with its three running offsets computes the rebased alias |
| SystemCore.SysWrite | src/core/system/core.c:46-60 | the guarded write: support, bound, then the driver |
| SystemCore.SysInvoke | src/core/system/core.c:25-44 | the guarded call: support, bound, then the driver |
| SystemCore.SysRead | src/core/system/core.c:62-90 | the guarded reads of inputs and outputs |
| SystemCore.SysAlias | src/core/system/core.c:92-107 | the guarded alias look-up |
| Handlers.HasIsReached | src/core/system/composite.c:55-71 | the leaf whose interval holds the id is reached, at the id less the members before it |
| Handlers.WriteCalls | src/core/system/composite.c:56-66 | the owner's handler gets its own context, the member's own number and the value; only that context changes, and a missing handler is not supported |
| Handlers.InvokeCalls | src/core/system/composite.c:161-171 | the same for calls, with all arguments |
| Handlers.ReadInputCalls | src/core/system/composite.c:94-104 | the same for reading inputs |
| Handlers.ReadOutputCalls | src/core/system/composite.c:128-138 | the same for reading outputs |
| Handlers.AliasCalls | src/core/system/composite.c:198-221 | the owner's alias handler gets the alias's own number; only the member id of its answer is rebased |
| Handlers.NobodyCalled | src/core/system/core.c:55-58 | an id that no leaf has is an invalid argument and changes nothing |
| Handlers.Unsupported | src/core/system/core.c:51-54 | a plain driver without the handler or its counter supports no such operation |
| Handlers.BankInput | src/core/system/composite.c:94-104 | on register banks, input `id` is the register with its own number at the owner |
| Handlers.BankOutput | src/core/system/composite.c:128-138 | on register banks, output `id` is the register with its own number at the owner |
| Handlers.BankCalled | src/core/system/composite.c:161-171 | on register banks, a call is recorded with its own number and all arguments at the owner only |
| Handlers.BankAliased | src/core/system/composite.c:198-221 | on register banks, alias `id` is the owner's alias with its own number, rebased |
| Handlers.BankWritten | src/core/system/composite.c:56-71 | on register banks, a write changes exactly one register |
| Handlers.BankReadAfterWrite | src/core/system/composite.c:37-143 | the input written reads back the value; every other input, of the same leaf too, and every output read as before |
| LeafModules.WriteSucceedsIffApplied | src/core/system/modules/analog_system.c:24-41 | a write reports success exactly when the device has followed the target |
| LeafModules.ToggleTwice | src/core/system/modules/digital_system.c:32-42 | a successful toggle inverts device and target together, and a second one undoes it |
| LeafModules.DeviceAfterWrite | src/core/system/modules/digital_system.c:44-49 | context and status after a write, for writable, read-only and failing devices |
| LeafModules.DeviceAfterToggle | src/core/system/modules/digital_system.c:32-42 | context and status after a toggle, for writable, read-only and failing devices |
| LeafModules.OutputIsDevice | src/core/system/modules/analog_system.c:37-41 | at any time, an output read gives the device's value, or its error exactly when it has one, whatever the target |
| LeafModules.OutputsFollowDevices | src/core/system/modules/digital_system.c:57-61 | memories with equal devices read equal outputs |
| LeafModules.InputIsTarget | src/core/system/modules/analog_system.c:31-35 | an input read gives the target, whatever the device |
| LeafModules.MembersCounted | src/core/system/modules/digital_system.c:105-127 | a tree has one output per leaf, one input per writable leaf, one function per writable digital leaf |
| LeafModules.AliasesCounted | src/core/system/modules/digital_system.c:129-135 | a read-only leaf has one alias, a writable analog one two, a digital one five |
| LeafModules.LeafAliasClosure | src/core/system/modules/digital_system.c:63-135 | every alias a leaf reports resolves to a member it currently has |
| LeafModules.AliasClosure | src/core/system/composite.c:178-309 | in any tree of such leaves, read-only or not, every alias below the count resolves to a member below the count of its kind, at the leaf that owns the alias |
| LeafModules.ReadAfterWrite | src/core/system/composite.c:37-143 | a write makes the same input read back the value; other inputs and other leaves' outputs read as before |
| LeafModules.RoutesAlike | src/core/system/composite.c:48-56 | routing depends on the leaves' counts only |
| LeafDevices.DataObject.Set | src/core/device/analog.c:25-37 | a read-only device is unchanged; another one stores the value even when it reports an error |
| LeafDevices.DataObject.Toggle | src/core/device/digital.c:50-54 | writes the inverse of the current state, or nothing when that cannot be read |
| LeafDevices.AnalogSystem.Init | src/core/system/modules/analog_system.c:17-22 | the target starts as the device value, or 0 if that cannot be read |
| LeafDevices.AnalogSystem.WriteInput | src/core/system/modules/analog_system.c:24-29 | target and device after a write, and its status |
| LeafDevices.AnalogSystem.GetAlias | src/core/system/modules/analog_system.c:43-63 | the alias table, with untouched fields kept |
| LeafDevices.AnalogSystem.MemberCount | src/core/system/modules/analog_system.c:65-89 | the counts, smaller for a read-only device |
| LeafDevices.DigitalSystem.Init | src/core/system/modules/digital_system.c:25-30 | the target starts as the device state, or off if that cannot be read |
| LeafDevices.DigitalSystem.WriteInput | src/core/system/modules/digital_system.c:44-49 | target and device take the truth value of the number written |
| LeafDevices.DigitalSystem.Invoke | src/core/system/modules/digital_system.c:32-42 | the toggle: the target changes even when the device then refuses |
| LeafDevices.DigitalSystem.GetAlias | src/core/system/modules/digital_system.c:63-103 | the alias table with its presets, untouched fields kept |
| LeafDevices.DigitalSystem.MemberCount | src/core/system/modules/digital_system.c:105-135 | the counts, smaller for a read-only device |
| DeviceTree.WriteLeaf | src/core/system/modules/analog_system.c:24-29 | writing a leaf object does to all objects what the leaf write does to the memory they show |
| DeviceTree.InvokeLeaf | src/core/system/modules/digital_system.c:32-42 | calling a leaf object does to all objects what the leaf call does to the memory they show |
| DeviceTree.ReadLeaf | src/core/system/modules/digital_system.c:51-61 | reading a leaf object is the leaf read of the memory shown |
| DeviceTree.AliasLeaf | src/core/system/modules/digital_system.c:63-103 | the alias of a leaf object is the leaf alias that the tree theorems are about |
| DeviceTree.CountLeaf | src/core/system/modules/digital_system.c:105-135 | the count of a leaf object is the leaf count that routing is about |
| DeviceTree.TreeWrite | src/core/system/core.c:46-60 | the guarded write on a tree of leaf objects does to them what it does to the memory they show |
| DeviceTree.TreeInvoke | src/core/system/core.c:25-44 | the guarded call on a tree of leaf objects does to them what it does to the memory they show |
| DeviceTree.TreeRead | src/core/system/core.c:62-90 | the guarded reads on a tree of leaf objects are those of the memory they show |
| DeviceTree.WriteThenRead | src/core/system/modules/digital_system.c:44-55 | on a tree of leaf objects, an input that was written reads back the value |
| DeviceTree.SetDevice | src/core/device/analog.c:25-37 | setting one device outside its leaf system changes that device only |
| DeviceTree.SetThenRead | src/core/system/modules/analog_system.c:31-41 | a device that was set outside its leaf system shows at its output and at no input |
| ConsoleDevice.SkipDelimiters | src/core/system/console.c:25-32 | stops at the first non-delimiter or at the end |
| ConsoleDevice.FindTokenEnd | src/core/system/console.c:35-42 | stops at the first delimiter or at the end |
| ConsoleDevice.CommandLength | src/core/system/console.c:78-90 | the length without trailing white space, as 16 bits hold it; 0 for a NULL pointer |
| ConsoleDevice.SpellsExactly | src/core/system/console.c:115-116 | the prefix comparison with length check is string equality, also for absent names |
| ConsoleDevice.Console.FindSystemIndexById | src/core/system/console.c:93-105 | the first entry with that id, or -1 |
| ConsoleDevice.Console.FindSystemIndexByName | src/core/system/console.c:108-122 | the first entry with that name, or -1 |
| ConsoleDevice.Console.FindCommandByAlias | src/core/system/console.c:125-146 | the first alias that spells the token, with look-ups overwriting one record |
| ConsoleDevice.Console.ParseMemberToken | src/core/system/console.c:45-75 | what the member token alone says, whatever an alias search left behind |
| ConsoleDevice.Console.ReadArguments | src/core/system/console.c:457-470 | the buffer holds the scanned arguments in front of its old contents; failure on the first non-number |
| ConsoleDevice.Console.SendResponse | src/core/system/console.c:163-183 | emits the response frame step by step, giving up at the first failing write |
| ConsoleDevice.Console.SendDump | src/core/system/console.c:187-236 | emits the dump step by step, giving up at the first failing write |
| ConsoleDevice.Console.Dump | src/core/system/console.c:500-511 | the dump of any systems, without an echo |
| ConsoleDevice.Console.SendHelp | src/core/system/console.c:239-313 | emits the help page step by step, giving up at the first failing write |
| ConsoleDevice.Console.FindSystemIndex | src/core/system/console.c:352-370 | the system the first token names by number or by name, if it is present |
| ConsoleDevice.Console.ExecuteMember | src/core/system/console.c:393-475 | resolving a member and executing it does what its tokens mean, and fills the argument buffer only by a call |
| ConsoleDevice.Console.ProcessCommand | src/core/system/console.c:316-478 | the pointer-walking processor performs and answers what the token list means, for every text, memory and stream state |
| ConsoleDevice.ArgsTurn | src/core/system/console.c:460-470 | one turn of the argument loop takes one number off the token list |
| ConsoleDevice.OverwriteIs | src/core/system/console.c:462-463 | the front of the argument buffer holds the scanned values, the rest is as before |
| ConsoleDevice.FirstPointers | src/core/system/console.c:321-350 | the pointer tests at the start of a line see what the first token says |
| Meaning.NoiseKeepsMeaning | src/core/system/console.c:316-477 | delimiter noise keeps the operation, its effect and its reply; at most the echo differs |
| Meaning.NumberedSystem | src/core/system/console.c:355-364 | a numbered system is found by its number modulo 256, after saturation to 32 bits |
| Meaning.CommandRoundTrip | src/core/system/console.c:316-478 | a printed operation is parsed to exactly that operation on the first entry with its id; only surplus call arguments are cut |
| Meaning.RenderText | src/core/system/console.c:316-477 | the printed commands, letter by letter |
| Meaning.RenderedCommandRuns | src/core/system/console.c:415-477 | a printed write leaves what the system's write leaves and answers 0 or its error; printed reads leave everything and answer what the system reads; a printed call as a write |
| Meaning.HelpMemberParses | src/core/system/console.c:287-299 | the member printed on the help page is one the console reads back |
| CommandLaws.FindsFirst | src/core/system/console.c:125-146 | the search finds an alias if and only if some guarded look-up below the count succeeds and spells the name, and then it is the first such |
| CommandLaws.NamedSystem | src/core/system/console.c:108-122 | a name means the first entry that has it, and nothing if that entry has no system |
| CommandLaws.AliasLine | src/core/system/console.c:399-413 | a command typed by alias does what the record of the first alias with that spelling says |
| CommandLaws.InputRuns | src/core/system/console.c:418-448 | a preset or a number is written, with 0 or the error as answer; without either the input is read; a token that is no number is refused |
| CommandLaws.OutputRuns | src/core/system/console.c:450-453 | an output is read, whatever follows |
| CommandLaws.FunctionRuns | src/core/system/console.c:455-475 | a function is called with the numbers that follow, which the argument buffer then holds |
| CommandLaws.FunctionRefused | src/core/system/console.c:464-468 | if what should be a number is none, nothing is called |
| CommandLaws.TurnOnLine | src/core/system/modules/digital_system.c:80-86 | turning on by alias makes target and device 1 and answers 0 |
| CommandLaws.TurnOffLine | src/core/system/modules/digital_system.c:87-93 | turning off by alias makes target and device 0 and answers 0 |
| CommandLaws.ToggleLine | src/core/system/modules/digital_system.c:94-99 | toggling by alias inverts the device, takes the target along and answers 0 |
| CommandLaws.AssignLine | src/core/system/modules/digital_system.c:74-79 | assigning the target by alias stores the truth of the number and answers 0 |
| CommandLaws.ReadLines | src/core/system/modules/digital_system.c:68-79 | the aliases of state and target show device and target |
| CommandLaws.SwitchThenShow | src/core/system/modules/digital_system.c:44-61 | what was switched by alias is what the next lines show |
| CommandLaws.GaugeLine | src/core/system/modules/analog_system.c:37-53 | the first alias of any shipped leaf, read-only or not, shows the device or its error |
| CommandLaws.TargetLine | src/core/system/modules/analog_system.c:54-59 | the second alias of a writable analog leaf shows the target |
| CommandLaws.TargetAssignLine | src/core/system/modules/analog_system.c:24-29 | assigning it sets target and device to the number and answers 0 or the device's error |
| LineLaws.StillAddressed | src/core/system/console.c:402-410 | on shipped leaves, what addresses a member still does when values have changed |
| LineLaws.WriteThenReadLines | src/core/system/console.c:418-448 | after `s<i>.x<j> = v` the line `s<i>.x<j>` answers v or its truth value, and the lines of other inputs answer as before |
| LineLaws.MemberTokenIff | src/core/system/console.c:45-75 | a member by number is one of three letters with a digit behind it |
| LineLaws.Refused | src/core/system/console.c:341-410 | empty lines, unknown systems and unknown members are answered with error 2 and change nothing |
| LineLaws.PageLines | src/core/system/console.c:325-388 | a name alone asks for the dump, with a question mark in front for help, and every line that starts with `clear` clears the screen |
| LineLaws.ClearBytes | src/core/system/console.c:326-329 | the bytes that clear the screen |
| LineLaws.ResponseBytes | src/core/system/console.c:161-183 | the bytes of a response |
| LineLaws.DumpBytes | src/core/system/console.c:187-236 | the bytes of a dump page around its table |
| LineLaws.HelpBytes | src/core/system/console.c:239-313 | the bytes of a help page: name and number, then a line for each alias in order |
| LineLaws.EchoIs | src/core/system/console.c:169-175 | the echo is the line without delimiters in front and white space behind, its length modulo 256 |
| Frames.FrameSentIff | src/core/system/console.c:149-183 | the whole frame reaches the sink if and only if writes report success and there is room |
| Frames.FrameRoundTrip | src/core/system/console.c:161-183 | a frame, whatever follows it, decodes to exactly its echo and result |
| Frames.FramesUnambiguous | src/core/system/console.c:149-183 | equal frames have equal echoes and equal results: values and errors are never confused |
| Frames.EchoExactIff | src/core/system/console.c:170 | the echo is the whole trimmed command if and only if that has at most 255 characters |
| Frames.RowsRectangular | src/core/system/console.c:210-231 | each row has its title and one field per column: the printed guarded read of that member |
| Frames.TitleIs | src/core/system/console.c:214-223 | the titles of the two rows of a system |
| Frames.DumpIsTable | src/core/system/console.c:202-231 | split at line breaks, a dump body is exactly one header line and two lines per system, with nothing behind the last newline |
| EndToEnd.Serve | src/core/system/console.c:481-487 | an update of the stream whose only callback is the console, called directly, refines the update function with the console as listener |
| EndToEnd.Perform | src/core/communication/stream.c:107-173 | any run of arrivals and updates on the driver, stream and console objects refines the run over their states |
| EndToEnd.ConsoleOnlyWrites | src/core/system/console.c:481-487 | the console's effect on the stream is that of writes, so the overflow bit survives it |
| EndToEnd.UnsoundLinkSilences | src/core/system/console.c:163-183 | while the overflow bit is set or the driver reports anything, only the start mark of a response is sent, though the command has been performed |
| EndToEnd.RunFolds | src/core/system/console.c:481-487 | under any fragmentation a run changes the memory as its delivered messages do, each once and in order |
| EndToEnd.ScriptDelivered | src/core/communication/stream.c:107-173 | whoever listens, printed commands sent as lines that fit the buffer are delivered exactly, under any fragmentation |
| EndToEnd.CommandsRunOnceInOrder | src/core/system/console.c:316-487 | once the input is drained, printed commands, sent as lines under any fragmentation, have been performed once each and in order: the memory is that of the systems' own writes and calls |
| EndToEnd.PerformCommands | src/core/system/console.c:316-487 | on the objects: once the input is drained, the memory is that of the commands performed once each in order |
| EndToEnd.NothingDropped | src/core/communication/stream.c:132-144 | no byte is dropped while no unfinished line outgrows the buffer |
| EndToEnd.RunAnswered | src/core/communication/stream.c:107-173 | in a run that drops no byte over a driver without errors, the sink receives exactly the replies in order, cut only by its room |
| EndToEnd.FramesSent | src/core/system/console.c:149-183 | the sink receives exactly the frames of the commands and their results, cut only by its room |
| EndToEnd.RepliesTellResults | src/core/system/console.c:149-183 | those bytes decode to exactly the commands, each with 0 or the error of the system's write or call, or with what the system read |

## Left out

- LinkedList.List.Remove: a node that is linked into another list is excluded, as `include/mc/list.h:69-71` demands; the model does not show how such a call damages the other list.
- LinkedList.List.Append: the count is unbounded; the source counts in 32 bits.
- Events.Event.Trigger: callbacks that register nodes or trigger the event again are not modelled; what a callback unregisters is fixed, whatever its context and the event data.
- Resource.Manager.Acquire: resources are distinct non-null values, as the pool macros produce them; a NULL resource would read as no resource.
- StreamDevice.Stream.Update: callbacks are given by their effect on their own state and on the link; re-entrant updates and mode changes from inside a callback are not modelled, and the driver status is constant during one update.
- StreamDevice.Stream.Write: the sink takes bytes until its room is used up; a driver that refuses one byte and accepts a later one, in a later write, is not representable.
- StreamDevice.Stream.GetStatus: a NULL or uninitialized stream, for which the source returns the error bit, is not modelled.
- EndToEnd.Serve: the stream's listener list is not in this part of the model; the console's callback is called directly, as the only one.
- StreamDevice.Stream.ReceiveLoop: the receive index is unbounded; the source has 16 bits for it and for the buffer length that bounds it.
- Streams.OverflowBit: for drivers that do not report the overflow bit themselves.
- Text.Strtol: saturates like a 32-bit `long`; a 64-bit `long` followed by the narrowing cast differs beyond the 32-bit range. The "C" locale is assumed.
- LeafDevices.DataObject.Set: the device driver is the data object's own, whose handlers are never NULL; the NOT_SUPPORTED branch for other drivers is not modelled.
- SystemCore.CompositeInvoke: as for `SystemCore.SysInvoke`, a handler sees the parsed arguments only.
- SystemCore.SysInvoke: a handler sees the arguments that were parsed, not the rest of the argument buffer behind them, and cannot write to the buffer.
- SystemCore.CompositeWrite: handlers see and change their own context only, and devices are part of that context; child drivers are never NULL.
- EndToEnd.RepliesTellResults: the sink needs room for all replies and every printed command at most 255 characters; `Frames.FrameSentIff` and `Frames.EchoExactIff` show that both are needed.
- ConsoleDevice.Console.SendHelp: a driver with aliases but no alias handler, which the source would call through NULL, keeps the record unchanged.
- Ports, hardware headers and driver implementations: foreign input and output, represented by the stream driver.
- Formatted printing beyond `%d`, `%i`, `%s` and literal text, and a `vsnprintf` that fails.
- Initialization flags and assertions: they are preconditions, or hold by construction; `mc_composite_init` only forwards.
- Device drivers other than the data objects, the vector device, the time driver, debug logging and status strings: delegation and tables.
- Status bits without a meaning (0x20 to 0x80), which no conversion reads.
- Interrupts that change volatile fields during a call.
