# emulica core in Dafny

emulica emulates a manufacturing shop floor. Products travel through
holders, which are conveyors or buffers. Actuators create, move, shape,
assemble, disassemble and dispose of products. Observers report what the
holders contain. A control system talks to the emulation through requests
and reports carried by stores, also called sockets. Each module keeps its
parameters in a properties registry, which can hold a program table and a
setup matrix. An editor changes these tables through an undo/redo command
manager. After a run, the traces feed a few charts.

This project models the sequential bookkeeping under the emulation
processes, one Dafny module per component:

- `HolderStates`: the lazily updated positions of the products in a holder.
- `Holders`: insertion into, and removal from, a holder.
- `Products`: products with their histories and components, and the root
  model's product and module dictionaries.
- `Namespace`: the tree of models and modules, dotted full names, lookup,
  listing and removal.
- `Actuators`: the open-record stack and execution trace of an actuator,
  its performance ratio, and the decisions an actuator takes on a request.
- `Observers`: the rising-edge logic of push observers and the snapshot of
  pull observers.
- `Messages`: requests and reports, and `wait_idle`.
- `Sockets`: how observers subscribe to a module's reports.
- `Properties`: the properties registry and displays.
- `SetupMatrices`: the setup matrix.
- `Programs`: programs and program tables.
- `Commands`: the undo/redo command manager and its commands.
- `Plot`: the monitor and the holder and Gantt charts.
- `Traces`: trace entries and Python's `list.remove`.
- `Errors`: Option, Result and the exceptions raised.

**How the model is represented.**

- State that the source updates in place is a Dafny class, with
  `modifies` clauses on its methods. This covers holder states, products,
  the model, actuators, observers, sockets, the registry, the matrix,
  program tables, the command manager and the monitor.
- The recursive namespace is modelled on values.
- Times, positions and speeds are reals.
- Python `eval` of expression strings is an uninterpreted parameter, a
  function from strings to values.
- Exceptions become `Err` results.

## Model

| member | source | states |
|---|---|---|
| HolderStates.Settle | emulica/core/emulation.py:1977-1994 | After an update, products are spaced: each is at least one length behind the one ahead of it and none is past the exit. |
| HolderStates.SpacedFloor | emulica/core/emulation.py:1977-1994 | In spaced positions, the i-th product is at least i lengths from the exit. |
| HolderStates.SettleAtZeroSpeed | emulica/core/emulation.py:1977-1994 | With speed 0 the positions become exactly 0, 1, ..., n-1. |
| HolderStates.SettleStable | emulica/core/emulation.py:1977-1994 | An update with no elapsed time leaves spaced positions unchanged. |
| HolderStates.SettleIdempotent | emulica/core/emulation.py:1977-1994 | Updating twice at the same instant equals updating once. |
| HolderStates.SettleAdvances | emulica/core/emulation.py:1977-1994 | With forward time and a non-negative speed, no product moves away from the exit. |
| HolderStates.ReadyStaysReady | emulica/core/emulation.py:2020-2028 | A product at the exit stays there through any later update. |
| HolderStates.DelayReachesExit | emulica/core/emulation.py:1996-2001 | Settling for the observation delay brings the first product exactly to the exit. |
| HolderStates.LastFloor | emulica/core/emulation.py:1961-1966 | The last of n spaced products is at least n-1 lengths out. |
| HolderStates.HolderState.constructor | emulica/core/emulation.py:1951-1959 | A new holder state is empty, with its last update at time 0. |
| HolderStates.HolderState.UpdatePositions | emulica/core/emulation.py:1977-1994 | The positions become the settled positions for the elapsed time, the products are unchanged, and the update time becomes `now`. |
| HolderStates.HolderState.Positions | emulica/core/emulation.py:1968-1975 | Returns the (position, product) pairs, paired by rank, after the update. |
| HolderStates.HolderState.Last | emulica/core/emulation.py:1961-1966 | The last product's position, or 0 for an empty holder. |
| HolderStates.HolderState.ObservationDelay | emulica/core/emulation.py:1996-2001 | 0 for an empty or still holder; otherwise the head's position divided by the speed. |
| HolderStates.HolderState.Append | emulica/core/emulation.py:2003-2010 | The product goes to the tail (FIFO order), entering at capacity-1, or at 0 when the holder is unbounded, before the update. |
| HolderStates.HolderState.SetContent | emulica/core/emulation.py:2012-2018 | Appends the products at positions 0, 1, 2, ... after whatever the holder already holds. |
| HolderStates.HolderState.Pop | emulica/core/emulation.py:2020-2028 | Empty holder: IndexError. Head at the exit: returns the old head and keeps the old tail. Otherwise an error, with the products unchanged. |
| HolderStates.HolderState.Len | emulica/core/emulation.py:2030-2032 | The number of products. |
| HolderStates.HolderState.GetFirst | emulica/core/emulation.py:2040-2041 | The head product, or IndexError when the holder is empty. |
| HolderStates.HolderState.IsFirstReady | emulica/core/emulation.py:2037-2038 | A ready first product is the head get_first returns, and it is at the exit; an empty holder has none ready. |
| HolderStates.ReadyThenPopSucceeds | emulica/core/emulation.py:2020-2028 | A pop that follows a successful readiness check returns the head. |
| HolderStates.PopSecondUpdate | emulica/core/emulation.py:2020-2028 | Pop's second update leaves a moving holder's remaining products in place, and packs a still holder to 0, 1, 2, .... |
| Holders.RoomLeft | emulica/core/emulation.py:1883-1907 | A bounded moving holder that need not wait holds fewer products than its capacity. |
| Holders.Holder.constructor | emulica/core/emulation.py:1852-1864 | A new holder is empty, with the given capacity and speed. |
| Holders.Holder.PutProduct | emulica/core/emulation.py:1883-1907 | Either asks to retry one product length later, with the products unchanged, or appends the product, records its move and observes the occupation. Capacity is never exceeded. |
| Holders.Holder.Enter | emulica/core/emulation.py:1899-1905 | On positions already brought up to date: the product enters at the entry position, its move is recorded in its history and its components' histories, and the new occupation is observed. |
| Holders.Holder.FetchProduct | emulica/core/emulation.py:1909-1923 | EmulicaError when the head is not ready; otherwise the head leaves, the rest stays in order, and the occupation is observed. |
| Holders.Holder.GetProducts | emulica/core/emulation.py:1925-1931 | The held products, head first. |
| Products.Product.constructor | emulica/core/emulation.py:601-637 | A new product is active, with the given pid, type and creation time, empty histories and no components. |
| Products.Product.RecordPosition | emulica/core/emulation.py:639-651 | Appends (now, space) to the space history of this product and of each direct component; no other history changes. |
| Products.Product.RecordTransformation | emulica/core/emulation.py:653-666 | Appends the entry to the shape history of this product and of each direct component; no other history changes. |
| Products.Product.PositionToComponents | emulica/core/emulation.py:649-651 | Appends the record to each direct component's space history once per key it is stored under; no other history changes. |
| Products.Product.TransformationToComponents | emulica/core/emulation.py:664-666 | Appends the record to each direct component's shape history once per key it is stored under; no other history changes. |
| Products.Product.Dispose | emulica/core/emulation.py:668-678 | Only the first call deactivates the product and stamps the disposal time. |
| Products.Product.Assemble | emulica/core/emulation.py:680-690 | Records the assembly, and stores the component under the key, which defaults to the number of components. |
| Products.Product.Disassemble | emulica/core/emulation.py:692-707 | Removes the component under the key, by default the largest key. No components: returns the product itself. Missing key: KeyError. |
| Products.AssembleDisassembleLifo | emulica/core/emulation.py:680-707 | With default keys, the last component assembled is the first taken out, and the earlier ones remain. |
| Products.RegisteredIsFound | emulica/core/emulation.py:460-480 | A module registered in a root model named 'main', under any other non-empty dot-free name, is found by get_module. |
| Products.RenameMoves | emulica/core/emulation.py:155-165 | After a rename the module is found under its new name and not its old one; other modules keep their entries. |
| Products.Model.constructor | emulica/core/emulation.py:278-307 | A new root model has no modules and no products, and its pid counter is at 1. |
| Products.Model.Register | emulica/core/emulation.py:460-480 | A name already registered, or 'main', gives EmulicaError with nothing changed; otherwise the module becomes the last entry. |
| Products.Model.Rename | emulica/core/emulation.py:155-165 | A name already in use gives EmulicaError; a missing module gives KeyError; otherwise the entry moves to the end under the new name. |
| Products.Model.Unregister | emulica/core/emulation.py:482-494 | The module tree becomes the tree with that dotted name removed, or the error of the lookup. |
| Products.Model.CurrentTime | emulica/core/emulation.py:523-529 | The simulation time, or 0 when no simulation runs. |
| Products.Model.NextPid | emulica/core/emulation.py:441-447 | Returns the counter, then increments it. |
| Products.Model.CreateProduct | emulica/core/emulation.py:601-637 | A non-zero pid already in use gives EmulicaError. Otherwise a free pid is drawn, or the given one kept, and a fresh product is registered under it. |
| Namespace.FullnameIsJoin | emulica/core/emulation.py:135-140 | A module's full name is its path components joined with dots. |
| Namespace.Fullname | emulica/core/emulation.py:135-140 | A full name ends with the module's own name. |
| Namespace.GetModule | emulica/core/emulation.py:318-342 | Nothing for the empty name. The only failures are KeyError and AttributeError. A module found is the model itself or is named by a suffix of the dotted name. |
| Namespace.HasModule | emulica/core/emulation.py:344-359 | True only for a non-empty name. The only failures are KeyError and AttributeError. |
| Namespace.ModuleList | emulica/core/emulation.py:309-316 | The list holds at least the model's own modules. |
| Namespace.HasModuleAgrees | emulica/core/emulation.py:344-359 | has_module is true exactly when get_module finds a module, false exactly when get_module returns nothing or misses the last key, and fails alike otherwise. |
| Namespace.GetModuleByFullname | emulica/core/emulation.py:318-342 | Looking up a module's full name from the root finds that module, provided names are non-empty and dot-free and no module shares its model's name. |
| Namespace.ShadowedLookup | emulica/core/emulation.py:329-342 | The own-name shortcut makes `s.s` designate submodel `s` rather than module `s` inside it. |
| Namespace.ModuleListReachable | emulica/core/emulation.py:309-316 | Every module that module_list returns is reachable from the model by a path of names. |
| Namespace.ModuleListHasModules | emulica/core/emulation.py:309-316 | Every direct module of the model appears in module_list. |
| Namespace.ReachableIsListed | emulica/core/emulation.py:309-316 | Every module reachable from the model by a path of names, in the model or in any submodel, is in module_list. |
| Namespace.Unregistered | emulica/core/emulation.py:482-494 | Removing a plain name deletes that entry only. A missing key is a KeyError. |
| Namespace.UnregisterRemoves | emulica/core/emulation.py:482-494 | After the removal, the name is no longer a key, and every other module still is. |
| Actuators.LatestWith | emulica/core/emulation.py:868-871 | The index of the latest open record in the state, or -1 when there is none; no later record has that state. |
| Actuators.Closed | emulica/core/emulation.py:863-877 | record_end closes the latest record in the state. When no record has that state, the index wraps and the last record is closed. With no state, the last record is closed. |
| Actuators.Ended | emulica/core/emulation.py:863-877 | The open records lose exactly one occurrence of the closed record. |
| Actuators.BeginThenEnd | emulica/core/emulation.py:856-877 | Beginning an activity and then ending its state closes exactly that activity and leaves the other open records as they were. |
| Actuators.EndWrapsToLast | emulica/core/emulation.py:868-872 | Ending a state that no open record has closes the most recent activity, whatever its state. |
| Actuators.DegradeAsWritten | emulica/core/emulation.py:895-901 | The ratio minus the degradation, floored at 0. |
| Actuators.RepairUndoesUnclampedDegrade | emulica/core/emulation.py:895-901 | As written, a repair restores the ratio only when the floor was not reached. |
| Actuators.OverlappingFailuresOvershoot | emulica/core/emulation.py:895-901 | As written, two overlapping full failures and their repairs leave the ratio at 2. |
| Actuators.RatioFor | emulica/core/emulation.py:895-901 | The ratio under the degradations in force lies in [0, 1]: 1 with none, 0 at or beyond full loss. |
| Actuators.RepairsRestore | emulica/core/emulation.py:1013-1040 | With the loss tracked, failures followed by their repairs restore the starting ratio, however they overlap. |
| Actuators.ScaledDelay | emulica/core/emulation.py:1794-1796 | ZeroDivisionError exactly on a ratio of 0; otherwise a delay that, multiplied by the ratio, gives the nominal one. |
| Actuators.DegradedIsNotFaster | emulica/core/emulation.py:1794-1796 | A degraded actuator never works faster than its nominal delay. |
| Actuators.OvershootHalvesDelays | emulica/core/emulation.py:1794-1796 | As written, after the overshoot, delays are halved. |
| Actuators.ProduceKeyword | emulica/core/emulation.py:1070-1070 | Each kind's produce keyword (create, dispose, move, make, assy, unassy) differs from 'setup'. |
| Actuators.KeywordsDistinct | emulica/core/emulation.py:1070-1070 | The produce keywords identify the actuator kinds one to one. |
| Actuators.StartTime | emulica/core/emulation.py:1105-1106 | A request is handled at the later of now and its date. A missing date or a date of 0 means at once. |
| Actuators.SetupRuns | emulica/core/emulation.py:1234-1234 | With the program unchanged, only an explicit 'setup' request runs a setup. A produce request runs one exactly when it changes the program. Any other request runs none. |
| Actuators.ImplicitAsWritten | emulica/core/emulation.py:1237-1237 | As written, a setup that keeps the program is never implicit, whatever the request asked for. |
| Actuators.Implicit | emulica/core/emulation.py:1234-1238 | Corrected: a setup asked for by an explicit 'setup' request is never implicit. |
| Actuators.SetupDoneAsWritten | emulica/core/emulation.py:1234-1238 | As written, 'setup-done' is reported exactly when a setup was asked for explicitly and keeps the program. |
| Actuators.ExplicitChangeIsSilent | emulica/core/emulation.py:1234-1238 | As written, an explicit setup to another program runs and is treated as implicit, so it is not reported. |
| Actuators.NewProgram | emulica/core/emulation.py:1229-1233 | A move actuator requires a 'program' parameter (else KeyError) that is in its table (else EmulicaError). Other programmable actuators default to the current program. |
| Actuators.Decide | emulica/core/emulation.py:1384-1393 | A setup runs iff the request is 'setup', or is the produce keyword for another program. setup-done is reported iff 'setup' was asked for. Production runs iff the produce keyword was asked for. |
| Actuators.SetupThenNoSetup | emulica/core/emulation.py:1306-1327 | After a setup to the requested program, a produce request for it needs no new setup. |
| Actuators.HoldFirst | emulica/core/emulation.py:1404-1412 | The first hold of the loop: multiplied by a positive ratio it gives the time left; a failed actuator waits 1. |
| Actuators.HoldLeft | emulica/core/emulation.py:1404-1412 | After an uninterrupted hold, the time left shrinks by the ratio's share; a failed actuator makes no progress. |
| Actuators.HoldLoopSteps | emulica/core/emulation.py:1399-1420 | At ratio 1 one hold of the delay ends the loop. A degraded actuator holds longer than the delay and still has time left, so the loop goes on. A failed one makes no progress. |
| Actuators.SetupDelay | emulica/core/emulation.py:1597-1610 | A move actuator waits the matrix delay as it is (line 1317). A shape actuator holds it through its hold loop (lines 1399-1420), whose first hold is returned. Assembly and disassembly actuators divide it by the performance ratio, with a ZeroDivisionError on a failed actuator. |
| Actuators.CreateArguments | emulica/core/emulation.py:1107-1114 | The pid is the 'productID' parameter, else 0. The type is the 'productType' parameter, else 'defaulType'. |
| Actuators.CreateDefaultTypeDiffers | emulica/core/emulation.py:1107-1114 | The type given to a created product without one is 'defaulType', not the product default 'defaultType'. |
| Actuators.Actuator.constructor | emulica/core/emulation.py:848-854 | An actuator starts with no records, an empty trace and a performance ratio of 1. |
| Actuators.Actuator.Initialize | emulica/core/emulation.py:880-893 | Resets the records, the trace and the performance ratio, and keeps the program. |
| Actuators.Actuator.RecordBegin | emulica/core/emulation.py:856-861 | Pushes (now, state) onto the open records; nothing else changes. |
| Actuators.Actuator.RecordEnd | emulica/core/emulation.py:863-877 | No open record: nothing changes. Otherwise the closed record leaves the open records and (start, now, state) is appended to the trace. |
| Actuators.Actuator.Degrade | emulica/core/emulation.py:895-901 | Corrected behaviour (see Findings): the loss in force grows by the degradation and the ratio follows it, so a repair undoes exactly its own failure. |
| Actuators.Actuator.OverlappingFailures | emulica/core/emulation.py:1013-1040 | Corrected behaviour (see Findings): after two overlapping full failures and both repairs the actuator is back at ratio 1, where the code as written ends at 2. |
| Actuators.Actuator.Setup | emulica/core/emulation.py:1306-1327 | A setup appends a 'setup' trace entry, leaves the open records as they were, and puts the new program in force. |
| Observers.Edge | emulica/core/emulation.py:2072-2088 | A report is due iff a head is ready and differs from the product reported last. The memory becomes the ready head, or none. |
| Observers.EdgeFiresOnce | emulica/core/emulation.py:2072-2088 | A ready head is reported once; asking again at once reports nothing. |
| Observers.EdgeRearms | emulica/core/emulation.py:2072-2088 | When the head stops being ready the memory clears, so the head is reported again when it is ready again. |
| Observers.EdgeNewHead | emulica/core/emulation.py:2072-2088 | A new head is reported even while the previous one was ready. |
| Observers.PushParams | emulica/core/emulation.py:2096-2108 | The report carries productType, productID and present exactly as configured, with the product's values. |
| Observers.FirstProductLogic.constructor | emulica/core/emulation.py:2068-2070 | A new logic remembers no product. |
| Observers.FirstProductLogic.Trigger | emulica/core/emulation.py:2072-2088 | Updates the positions, then decides and remembers as Edge does. A head that is not ready clears the memory and reports nothing. |
| Observers.FirstProductLogic.IsGone | emulica/core/emulation.py:2090-2093 | Gone when nothing is remembered. With a head, gone exactly when the head is another product. With an empty holder, not gone, because the length 0 is falsy. |
| Observers.FirstProductLogic.Response | emulica/core/emulation.py:2096-2108 | The report of the remembered product. An AttributeError iff no product is remembered and a product attribute is asked for. |
| Observers.PushObserver.constructor | emulica/core/emulation.py:2110-2135 | The event name defaults to the observer's name. No report is kept. |
| Observers.PushObserver.Step | emulica/core/emulation.py:2199-2227 | A rising edge sends the new head's report, kept when absences are observed. A head that is gone resends the kept report with present set to false, then forgets it. Otherwise nothing is sent. |
| Observers.IndexByPosition | emulica/core/emulation.py:2277-2281 | The dict maps exactly the occupied positions, each to the identity (or type) of the product there. |
| Observers.PositionParams | emulica/core/emulation.py:2277-2283 | The report parameters hold exactly ID_by_position and Type_by_position, which map each occupied position to that product's id and to its type. |
| Observers.PositionResponse | emulica/core/emulation.py:2270-2284 | A report whose ID_by_position and Type_by_position map each occupied position to that product's id and type. |
| Messages.Request | emulica/core/emulation.py:736-756 | A request with the given fields; an empty location defaults to the actor. |
| Messages.Report | emulica/core/emulation.py:796-811 | A report with the given fields; an empty location defaults to the source. |
| Messages.SameFieldsIsEqualityUpToKind | emulica/core/emulation.py:813-820 | Message equality compares the six fields: it is value equality that ignores whether a message is a request or a report. |
| Messages.SameFields | emulica/core/emulation.py:813-820 | Equal messages compare equal, and two messages of the same kind that compare equal are identical. |
| Messages.RequestEqualsReport | emulica/core/emulation.py:774-782 | A request and a report built from the same arguments compare equal although they differ in kind. |
| Messages.DefaultLocation | emulica/core/emulation.py:736-756 | Without a location, a request is located at its actor; a given location is kept. |
| Messages.UpToIdleIsIdlePrefix | emulica/core/emulation.py:68-78 | What wait_idle consumes is a prefix ending with the first idle report, or everything when there is none; no earlier message is idle. |
| Messages.UpToIdle | emulica/core/emulation.py:68-78 | wait_idle consumes no more messages than the queue holds. |
| Messages.WaitIdle | emulica/core/emulation.py:68-78 | Consumes exactly UpToIdle of the queue, which is followed in the old queue by what remains; found iff some message is idle. |
| Sockets.Multiplier.constructor | emulica/core/emulation.py:550-557 | A multiplier reads its source and starts with no clients. |
| Sockets.Multiplier.CreateClient | emulica/core/emulation.py:567-574 | Appends a fresh, empty client store and returns it. |
| Sockets.Multiplier.AttachClient | emulica/core/emulation.py:576-582 | Appends the given store to the clients. |
| Sockets.Module.constructor | emulica/core/emulation.py:122-133 | A new module accepts observers and has no multiplier. |
| Sockets.Module.Initialize | emulica/core/emulation.py:148-153 | Creates fresh empty sockets, accepts observers again and drops the multiplier. |
| Sockets.Module.CreateReportSocket | emulica/core/emulation.py:168-195 | Closed module: EmulicaError and no change. A single observer receives the report socket and closes the module. A multiple observer receives a fresh client of the multiplier, created on first use. |
| Sockets.Module.AttachReportSocket | emulica/core/emulation.py:197-214 | Closed module: EmulicaError. Otherwise the store is appended to the multiplier's clients, and the multiplier is created on first use. |
| Sockets.DirectObserverIsExclusive | emulica/core/emulation.py:168-214 | After a direct subscription both kinds of subscription are refused until the module is initialized again. |
| Properties.EvalExpression | src/emulica/core/properties.py:178-192 | Non-string values are returned unchanged; strings go to the evaluator. |
| Properties.Code | src/emulica/core/properties.py:421-440 | Each display type has its integer constant. |
| Properties.FromCode | src/emulica/core/properties.py:421-440 | The display type designated by a constant, if there is one. |
| Properties.CodeRoundTrip | src/emulica/core/properties.py:421-440 | Constants and display types correspond one to one. |
| Properties.DefaultValue | src/emulica/core/properties.py:453-462 | The default value of each display type. |
| Properties.NewDisplay | src/emulica/core/properties.py:464-481 | A new display has the default bounds. |
| Properties.IsInt | src/emulica/core/properties.py:483-485 | True exactly for the integer display type. |
| Properties.Registry.constructor | src/emulica/core/properties.py:65-78 | A new registry has no values, auto-evaluated names or displays. |
| Properties.Registry.Get | src/emulica/core/properties.py:162-164 | The raw value, or KeyError. |
| Properties.Registry.Evaluate | src/emulica/core/properties.py:166-169 | The evaluated value, or KeyError. |
| Properties.Registry.Lookup | src/emulica/core/properties.py:80-86 | Item access: the evaluated value iff the name is auto-evaluated, else the raw value; KeyError when the name is absent. |
| Properties.Registry.SetItem | src/emulica/core/properties.py:88-92 | Assignment sets that one value; nothing else changes. |
| Properties.Registry.DelItem | src/emulica/core/properties.py:29-29 | Deletion removes the value iff present, else KeyError. Auto-evaluation marks and displays are kept. |
| Properties.Registry.SetAutoEval | src/emulica/core/properties.py:99-104 | Marking adds the name. Unmarking removes it, or gives KeyError when it is not marked. |
| Properties.Registry.AddWithDisplay | src/emulica/core/properties.py:106-129 | Stores the value, or the type's default for None, and the display, whose name defaults to the property's. The name is appended to the display order. |
| Properties.Registry.SetDisplay | src/emulica/core/properties.py:131-140 | Sets the display and always appends the name to the display order. |
| Properties.Registry.GetDisplay | src/emulica/core/properties.py:142-152 | The display, or KeyError. |
| Properties.Registry.Displayables | src/emulica/core/properties.py:154-160 | The (name, value, display) triples in display order, values read by item access; KeyError iff a displayed name lost its value or display. |
| Programs.SchemaDefaults | src/emulica/core/properties.py:347-349 | Each schema parameter appears with its type's default. |
| Programs.SchemaDefaultsLastWins | src/emulica/core/properties.py:347-349 | For a repeated parameter, the default of the last schema entry wins. |
| Programs.Program.constructor | src/emulica/core/properties.py:377-388 | A program has the given time law and resources and an empty transform. |
| Programs.Program.Time | src/emulica/core/properties.py:390-394 | The time law, evaluated when it is a string and unchanged otherwise. |
| Programs.ProgramTable.constructor | src/emulica/core/properties.py:336-341 | A new table has the schema and no programs. |
| Programs.ProgramTable.Lookup | src/emulica/core/properties.py:304-326 | The program under the name, or KeyError. |
| Programs.ProgramTable.SetItem | src/emulica/core/properties.py:322-325 | Assignment stores that one program. |
| Programs.ProgramTable.DelItem | src/emulica/core/properties.py:304-326 | Deletion removes the program iff present, else KeyError. |
| Programs.ProgramTable.AddProgram | src/emulica/core/properties.py:343-359 | Stores a fresh program under the name, with time law `delay`, given resources, and transform = schema defaults overridden by the given entries. |
| Programs.Defaults | src/emulica/core/properties.py:347-349 | Builds exactly the schema defaults: each schema parameter with its type's default, a later entry of the same name winning. |
| Programs.Override | src/emulica/core/properties.py:350-358 | Returns the defaults overridden by the given transform: given entries win, other defaults are kept. |
| SetupMatrices.FlattenAdd | src/emulica/core/properties.py:220-231 | add updates exactly the (initial, final) pair of the stored delays. |
| SetupMatrices.FlattenRemoveLast | src/emulica/core/properties.py:238-248 | Removing the last entry of a column removes just that pair. |
| SetupMatrices.FlattenRemoveShared | src/emulica/core/properties.py:238-248 | Removing an entry from a column that holds others drops every pair to the same final program. |
| SetupMatrices.SetupMatrix.constructor | src/emulica/core/properties.py:206-218 | A new matrix has the default time and no entries. |
| SetupMatrices.SetupMatrix.Delay | src/emulica/core/properties.py:268-287 | The exact entry, else the add_final default, else the default time. |
| SetupMatrices.SetupMatrix.Get | src/emulica/core/properties.py:268-287 | 0 from a program to itself, even with an explicit entry; otherwise the selected delay, evaluated. |
| SetupMatrices.SetupMatrix.Add | src/emulica/core/properties.py:220-231 | Stores the delay under (initial, final); every other pair is unchanged. |
| SetupMatrices.SetupMatrix.AddFinal | src/emulica/core/properties.py:233-236 | Sets the default for the final program; the stored pairs are unchanged. |
| SetupMatrices.SetupMatrix.Remove | src/emulica/core/properties.py:238-248 | KeyError iff the pair is not stored. Otherwise, with the inverted emptiness test, the column is dropped if entries remain, and kept empty otherwise. |
| SetupMatrices.SetupMatrix.Modify | src/emulica/core/properties.py:250-266 | Re-keys when a differing new name is given. A truthy new time is then written under the original key, which is a KeyError when that column was dropped. |
| SetupMatrices.SetupMatrix.Len | src/emulica/core/properties.py:296-301 | The number of stored (initial, final) pairs. |
| SetupMatrices.AddThenGet | src/emulica/core/properties.py:220-287 | After add(i, f, t) with i != f, get(i, f) is t evaluated. |
| SetupMatrices.ModifyTimeOnly | src/emulica/core/properties.py:250-266 | Changing only the time, to a truthy one, replaces that one delay. |
| SetupMatrices.ModifyNothing | src/emulica/core/properties.py:250-266 | A falsy time and no re-keying leave the matrix unchanged. |
| SetupMatrices.ModifyRekeyMoves | src/emulica/core/properties.py:250-266 | Re-keying a column's only entry moves its delay and leaves an empty column. |
| SetupMatrices.ModifyRekeyDropsColumn | src/emulica/core/properties.py:250-266 | Re-keying an entry whose column holds another loses that other entry; a truthy time then fails when the final program changed. |
| Commands.Without | emulica/CommandManager.py:188-199 | `del d[k]`: KeyError with no change when the key is absent; otherwise only k goes. |
| Commands.Rename | emulica/CommandManager.py:160-177 | The entry moves to the new name, evaluated when the old one is auto-evaluated; other names are untouched; KeyError when the old name is absent. |
| Commands.Move | emulica/CommandManager.py:299-316 | The program moves to the new name; other names are untouched; KeyError when it is absent. |
| Commands.RegistryEffect | emulica/CommandManager.py:129-223 | Undoing or redoing a property command; a failure is a KeyError that changes nothing. |
| Commands.TableEffect | emulica/CommandManager.py:225-319 | Undoing or redoing a program command; a failure is a KeyError that changes nothing. |
| Commands.ApplyToRegistry | emulica/CommandManager.py:129-223 | The registry's values become the effect's; the marks and displays are unchanged. |
| Commands.ApplyToTable | emulica/CommandManager.py:225-319 | The table's programs become the effect's. |
| Commands.ApplyToMatrix | emulica/CommandManager.py:322-386 | The matrix's entries become the effect's. |
| Commands.Apply | emulica/CommandManager.py:45-57 | Undoing or redoing a command changes its target as its effect function says and raises what the effect raises. |
| Commands.CommandManager.constructor | emulica/CommandManager.py:37-43 | Both stacks start empty. |
| Commands.CommandManager.AddCmd | emulica/CommandManager.py:59-62 | Pushes the command and empties the redo stack. |
| Commands.CommandManager.Undo | emulica/CommandManager.py:45-50 | IndexError iff there is nothing to undo. Otherwise pops the command and undoes it, pushing it on the redo stack only when the undo succeeded. |
| Commands.CommandManager.Redo | emulica/CommandManager.py:52-57 | The mirror image of Undo. |
| Commands.CommandManager.Perform | emulica/CommandManager.py:363-386 | Creating a command performs its redo action; it is recorded only when that succeeded. |
| Commands.CommandManager.ChangePropOp | emulica/CommandManager.py:129-153 | Sets the value and records the command with the previous item-access value, or None when absent. |
| Commands.CommandManager.ChangePropNameOp | emulica/CommandManager.py:155-180 | Renames the property; records the command iff the old name existed. |
| Commands.CommandManager.DelPropOp | emulica/CommandManager.py:183-202 | Deletes the property and records its item-access value; KeyError, with nothing changed or recorded, when it is absent. |
| Commands.CommandManager.AddPropOp | emulica/CommandManager.py:204-223 | Sets the property and records the command. |
| Commands.CommandManager.AddProgOp | emulica/CommandManager.py:225-250 | Adds a fresh program through add_program and records it. |
| Commands.CommandManager.DelProgOp | emulica/CommandManager.py:252-271 | Deletes the program and records it; KeyError, with nothing recorded, when it is absent. |
| Commands.CommandManager.ChangeProgTimeOp | emulica/CommandManager.py:273-292 | Sets the time law and records the old one. |
| Commands.CommandManager.ChangeProgNameOp | emulica/CommandManager.py:294-319 | Renames the program; records the command iff the old name existed. |
| Commands.CommandManager.AddSetupOp | emulica/CommandManager.py:322-340 | Stores the delay and records the command. |
| Commands.CommandManager.DelSetupOp | emulica/CommandManager.py:342-361 | Removes the pair and records the delay given by get; KeyError, with nothing recorded, when the pair is not stored. |
| Commands.CommandManager.ChangeSetupOp | emulica/CommandManager.py:363-386 | Records old = (i, f, get(i, f)) and new = (ni or i, nf or f, nt or old time), and modifies the matrix from old to new. |
| Commands.AddPropRoundTrip | emulica/CommandManager.py:204-223 | Adding a new property, then undoing, restores the registry; a redo reproduces the addition. |
| Commands.AddPropOverExistingLoses | emulica/CommandManager.py:204-223 | Undoing the addition of an existing property deletes it, so its old value is lost. |
| Commands.DelPropRoundTrip | emulica/CommandManager.py:183-202 | Deleting a plain property, then undoing, restores the registry; a redo deletes it again. |
| Commands.DelPropAutoEvalRestoresValue | emulica/CommandManager.py:183-202 | Undoing the deletion of an auto-evaluated property puts back the expression's value, not the expression. |
| Commands.ChangePropRoundTrip | emulica/CommandManager.py:129-153 | Undo restores an existing plain property; an absent one becomes None, not deleted. A redo reapplies the change. |
| Commands.ChangePropNameRoundTrip | emulica/CommandManager.py:155-180 | Renaming to a fresh name, then undoing, restores the registry; a redo renames again. |
| Commands.ChangePropNameOverwrites | emulica/CommandManager.py:155-180 | Renaming onto an existing property and undoing loses that property. |
| Commands.AddProgRoundTrip | emulica/CommandManager.py:225-250 | Adding then undoing restores the table; a redo puts back the same program object. |
| Commands.DelProgRoundTrip | emulica/CommandManager.py:252-271 | Deleting then undoing restores the table; a redo deletes it again. |
| Commands.ChangeProgNameRoundTrip | emulica/CommandManager.py:294-319 | Renaming to a fresh name, then undoing, restores the table. |
| Commands.AddSetupRoundTrip | emulica/CommandManager.py:322-340 | Adding to a new column, then undoing, restores the stored delays. |
| Commands.AddSetupUndoDropsColumn | emulica/CommandManager.py:322-340 | Undoing an addition to a column that holds another delay loses that delay. |
| Commands.DelSetupRoundTrip | emulica/CommandManager.py:342-361 | Deleting a column's only delay, then undoing, restores the delays when the delay is a value. |
| Commands.ChangeSetupTimeRoundTrip | emulica/CommandManager.py:363-386 | A change of a truthy delay to a truthy one is undone exactly. |
| Commands.ChangeSetupFromFalsyStays | emulica/CommandManager.py:363-386 | A change away from a falsy delay cannot be undone: the new delay stays. |
| Commands.UndoThenRedo | emulica/CommandManager.py:45-57 | An undo followed by a redo, both successful, gives back both stacks. |
| Commands.ChangeProgTimeThenUndo | emulica/CommandManager.py:273-292 | Changing a time law and undoing the change restores it. |
| Commands.AddProgThenUndoRedo | emulica/CommandManager.py:225-250 | Add, undo and redo leave the table with the same fresh program under the name. |
| Plot.AreaConstant | src/emulica/core/plot.py:66-77 | A constant series has the constant times the covered time as its area. |
| Plot.AreaLower | src/emulica/core/plot.py:66-77 | Values of at least lo give an area of at least lo per time unit. |
| Plot.AreaUpper | src/emulica/core/plot.py:66-77 | Values of at most hi give an area of at most hi per time unit. |
| Plot.Monitor.constructor | src/emulica/core/plot.py:40-47 | A monitor starts with the single observation (0, 0). |
| Plot.Monitor.Observe | src/emulica/core/plot.py:49-52 | Appends (now, value); the two series keep equal length. |
| Plot.Monitor.Len | src/emulica/core/plot.py:62-64 | The number of observations, at least 1. |
| Plot.Monitor.TimeAverage | src/emulica/core/plot.py:66-77 | The step function's area divided by now; ZeroDivisionError at time 0. |
| Plot.AverageBetween | src/emulica/core/plot.py:66-77 | The time average lies between the smallest and largest possible values. |
| Plot.HolderChart.constructor | src/emulica/core/plot.py:84-93 | A chart starts with max and end time 0. |
| Plot.HolderChart.ProcessTrace | src/emulica/core/plot.py:95-111 | The step-plot points: the first point, then (t_k, v_k-1) and (t_k, v_k), then the end point. max becomes the largest value. An empty series gives IndexError. |
| Plot.Failures | src/emulica/core/plot.py:285-292 | The failure entries, in order. |
| Plot.NonFailures | src/emulica/core/plot.py:285-292 | The other entries, in order. |
| Plot.RemoveNextFailure | src/emulica/core/plot.py:285-292 | Each list.remove takes out the next failure. |
| Plot.DropAllFailures | src/emulica/core/plot.py:285-292 | Removing every failure leaves exactly the non-failures. |
| Plot.CondenseLabels | src/emulica/core/plot.py:294-307 | Every condensed row is labelled with the name followed by a state. |
| Plot.Condense | src/emulica/core/plot.py:294-307 | At least one row, and at most one more than the entries left. The first row starts where the current row started. |
| Plot.CondenseNeverMerges | src/emulica/core/plot.py:294-307 | When no state equals the prefixed label, every non-empty entry becomes a row of its own. |
| Plot.MergeWithEmptyName | src/emulica/core/plot.py:294-307 | With an empty name, two contiguous activities in the same state merge into one row. |
| Plot.SplitFailures | src/emulica/core/plot.py:285-292 | Returns the failures in order and leaves the non-failures in the trace. |
| Plot.CondenseTrace | src/emulica/core/plot.py:294-307 | The condensed rows of a non-empty trace, its first entry opening the first row. |
| Plot.GanttProcessTrace | src/emulica/core/plot.py:280-315 | An empty trace gives the single row (0, 0, failure). Otherwise the failures are removed in place and the rest is condensed; a trace of failures only gives IndexError. |
| Traces.RemoveFirst | emulica/core/emulation.py:873-873 | list.remove takes out one occurrence of the element, or leaves the list unchanged when it is absent. |

## Left out

- `create_module`, `delete_module` and `rename_module` of the command manager (emulica/CommandManager.py:70-127) are left out. They go through module construction, the GUI canvas and emuML, which are not modelled. The same applies to the `handler` callback and `modify_canvas_layout`, which does nothing.
- The SimPy processes are not modelled: the actuators' `run` loops, their interruptible hold loops and `EventMultiplier.run`. Neither are resources, observer reactivation or signals. Only the decisions these make are modelled, and `PutProduct` models one resumption of `put_product`.
- Python `eval` is an uninterpreted parameter, a function from strings to values. Random number generators are not modelled.
- Floating point is modelled as exact reals. The exit tolerance (1e-9) and the Gantt merge tolerance are kept as constants.
- Registry entries that hold a program table or a setup matrix are objects, not values. `DefaultValue` gives them no default.
- `Commands.CommandManager.AddProgOp` requires every schema entry to have a default. It passes no resources, and it models a missing transform as an empty map. The `prog is None` branch of the add_prog command cannot be reached once `add_program` has run.
- `Commands.CommandManager.ChangeSetupOp`: the model represents Python's None for a name by "", and for a time by VNone.
- `Observers.PushObserver.Step`: when a product leaves, the source sets present to false on the report object it already sent, so the earlier report in the store changes too. The model sends an updated copy and does not model that aliasing.
- `Holders.Holder.PutProduct` does not model the notification of the holder's observers (its `__notif_observers`), which reactivates processes.
- `Sockets.Module.CreateReportSocket` and `Sockets.Module.AttachReportSocket` do not start the multiplier's process; only its client list is modelled.
- Messages: `__repr__` and the emuML codec are not part of this model.
- emuML, the controller, the GUI, chart rendering and colours are not part of this model.
- Actuators.Actuator.Degrade: with `Actuators.Actuator.OverlappingFailures`, keeps the corrected, loss-tracking ratio of the first finding, not the clamped subtraction of emulation.py:899. The ratio as written is `Actuators.DegradeAsWritten`, and `Actuators.OverlappingFailuresOvershoot` shows where the two differ.
- Actuators.SetupDelay: for a shape actuator only the first hold of its interruptible hold loop (emulation.py:1399-1420) is returned. `Actuators.HoldLoopSteps` shows when the loop ends after one hold and when it goes on. The total time of a degraded setup and the interruptions by failures are not modelled.
- Products.Model.Register: does not model the `apply_inputs()` call made when the registered module is a submodel (emulation.py:477-478). The inputs table and the modules' registries are not part of the `Node` values of the namespace.

## Findings

| source | as written | input that shows it | evidently intended | confidence | as-written member | corrected member |
|---|---|---|---|---|---|---|
| emulica/core/emulation.py:895-901 | `degrade` subtracts the degradation from the ratio and floors the result at 0. A repair adds the degradation back, so a failure absorbed by the floor is still repaired. | Two overlapping failures of degradation 1 on an actuator at 1.0: 1 -> 0 -> 0 (floored) -> 1 -> 2. The actuator ends twice as fast as nominal. | A repair undoes exactly its own failure: the ratio follows the degradations in force, and returns to 1 once every failure is repaired. | not executed | Actuators.OverlappingFailuresOvershoot | Actuators.RepairsRestore, Actuators.Actuator.Degrade, Actuators.Actuator.OverlappingFailures |
| emulica/core/emulation.py:1234-1238 | `implicit = (module.program != new_program)` whatever the request asked for, and setup-done is reported only when not implicit. | A request with what = 'setup' and program 'q' to an actuator set up for 'p': the setup runs and is never reported. | A setup is implicit only when a produce request implied it. An explicit 'setup' request is always reported. | not executed | Actuators.ExplicitChangeIsSilent | Actuators.Decide |
