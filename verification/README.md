# RustyNES host logic: verified models

Dafny 4.11 models of the host-side state machines of the RustyNES iOS app and of the algorithms in its
tooling scripts, with proofs of what they promise. `dafny verify dfyconfig.toml` checks everything.

| files | what they model |
|---|---|
| `ControllerPorts`, `PadLaws`, `ControllerManager` | the hardware-pad manager: four NES ports, port memory, reassignment with swaps, remapping, the shared turbo timer |
| `InputFanIn`, `InputPath`, `NesButtons` | the joining of pad and touch masks on their way to the core, joint runs of pads, touches and games, the touch pad's hit test, the multi-touch surface |
| `SaveSlots`, `CloudSync`, `CloudSyncObject`, `TaskLaws`, `StatusLaws`, `ClearedSlots`, `CloudConvergence`, `SavePropagation` | last-writer-wins synchronisation of save slots between devices and one store, cut into steps at every suspension; what is shown, which clears last, which interleavings converge, how a save travels |
| `FramePacing` | the display-link accumulator with its burst cap and debt clamp |
| `ScriptedExport` | the scripted-input movie export of the emulator core |
| `UnifBoards`, `RankCandidates`, `LibraryIndex`, `TierNames`, `Screenshots` | the coverage tool: UNIF chunk walk, greedy deduplicating choice, incremental index, relocation of the screenshot trees |
| `MirrorLinks`, `LinkTargets`, `PageUrls` | the wiki mirror: link rewriting (network-path and absolute-path references of sections 4.2 and 5.2 of RFC 3986) and guessed page URLs |
| `TraceCensus` | the resynchronising walk over two boot traces |
| `SymbolMaps`, `SymbolLines` | the debugger's symbol files: merge, the three line parsers, the address parser |
| `Common`, `Strings` | shared helpers |

Objects that the source updates in place are classes. Each of their methods states its whole new state
through a function of the old one (`View()` gives the state as a value), and the lemmas about runs are
about those functions. Asynchronous code is a state machine over its steps: everything between two
suspension points is one step, and runs are arbitrary interleavings.

## What the proofs found

Each of these follows the code; where a promise fails, the exact condition under which it holds is proved.

- A remembered port is only checked against the upper bound, so a negative entry in the saved map would be
  used as a port (`PreferredPortFacts`: in range exactly when the saved entry is not negative; a fresh manager
  satisfies the invariant exactly when no saved entry is).
- Reassigning a pad to a free port leaves its old port's last mask in place: the release of the previous
  port is inside the swap branch. `ReleasedIffNotStranded` says exactly which reassignments break the rule
  that unowned ports carry an empty mask.
- Opening a game does not forward masks already held (`OpeningAgreesIffNothingHeld`).
- The reconciliation compares stamps before it suspends and does not compare again before importing. A save
  made in between is overwritten and reported synced (`SaveDuringImportIsLost`); `ImportKeepsMaximumIff` is the
  exact condition.
- A cleared slot does not always stay cleared. An import of it that was suspended brings it back
  (`ClearDuringImportIsUndone`), and so does a reconciliation that had fetched a record of it and not come to it yet
  (`ClearBeforeImportIsUndone`). In a step without a save it comes back exactly at the write or at the end of an
  import into it (`BlankStaysIff`); the clear lasts in every future without a save or a new fetch of the slot exactly
  when no reconciliation holds a record of it or is importing one at that moment (`ClearLastsIff`). For the same
  reason an empty slot can be shown synced (`StatusesStayBackedIff`).
- Devices do not always converge. An import of an older record, suspended before the newest record is reconciled,
  overwrites it afterwards (`StaleImportUndoesConvergence`); opening the game again during an import gets there
  (`ReopeningKeepsTheImport`). A converged device is safe in every future without new saves or a disturbance of its
  own slot if and only if no import of another copy is suspended on it (`SafeIffSettled`). An import or a clear that
  fails half way can leave an old copy with a new stamp; `GreatestStaysIff` says when. Uploads overwrite whatever
  the store holds, so one that lands late takes the cloud back (`LateLandingLowersTheCloud`); `CloudStaysIff` is
  the exact condition.
- A reconciliation of a game that is no longer on screen changes a status only when its account check fails:
  it then marks the current game's slots unavailable (`StalePullChangesStatusesIff`).
- An import whose blob write succeeds and whose sidecar write fails loses the remote stamp (`StoredCopy`).
- One late callback after a reset reaches the largest pacing debt, and three more do not always pay it off
  (`ThreeCallbacksAreNotEnough`); four do, and `PaidOffIff` says exactly when it is paid.
- The categorisation stops with an error when a plain file has the place of a directory
  (`PlainFileStopsTheRun`); it completes exactly when none does (`RunCompletesIff`).
- Two names make flat PNGs that are never moved, `.png` and `..png` (`FlatPngStaysIff`), and the second can itself
  stop the command (`KeptPngStopsTheRun`). A flat PNG named `...png` leaves the tree for the directory above it
  (`RunItems`).
- Moving a flat PNG into its directory and merging two copies of a directory replace files of the same name. A run
  loses no file exactly when no two different ones go to one place (`RunKeepsEveryFileIff`).
- A library root listed twice is counted twice (`RepeatedRootIff`).
- Rewriting keeps what a link points to, except that a network-path reference always goes to https: it keeps its
  target exactly when the upstream site is on https (`RewriteKeepsTheTarget`). The table of external prefixes has no
  effect, because only values with a leading slash are ever rewritten (`RewriteCounts`).
- The mask an export would make up behind the end of its table is never used (`CursorStaysInTable`).
- Choosing candidates with a count below one still yields one (`Rank`).
- The search for two-word namespaces never hits, because the first word is always a namespace itself
  (`TwoWordSearchNeverHits`). The digit-pair search is said to be overlapping in its comment and is not
  (`OverlappingPairIsMissed`): every pair is tried exactly when no two pairs of the URL overlap
  (`EveryPairIsTriedIff`). The model follows the code.
- The drift reported by the trace walk is the true one for traces of the same instructions
  (`SameStreamDriftIsTrue`), which are exactly those without forks (`NoForksIff`). One extra trip around a waiting
  loop already hides cycles (`ForkHidesDrift`): for traces that differ by such trips the report is short by exactly
  their cycles (`ExtraTripsAreHidden`).
- The label cap of the symbol map can never be reached (`CapIsNeverReached`).

## Model

| member | source | states |
|---|---|---|
| `ControllerPorts.Run` | ios/RustyNES/GameControllerManager.swift:205-395 | After any sequence of connects, disconnects, reassignments, input changes, remap edits and timer fires: at most four pads, distinct ports in 0..3, timer exactly when some pad holds turbo, no timer means phase off, every pad's masks are those of its reading, and the last mask sent to each owned port is held OR turbo on the on-phase |
| `ControllerPorts.EventKeeps` | ios/RustyNES/GameControllerManager.swift:205-373 | Every single step keeps that invariant |
| `ControllerPorts.PreferredPortFacts` | ios/RustyNES/GameControllerManager.swift:376-383 | With fewer than four pads the chosen port is unused; it is in 0..3 exactly when the remembered port is not negative |
| `ControllerPorts.FreePortExists` | ios/RustyNES/GameControllerManager.swift:376-383 | Pigeonhole: with fewer than four pads the lowest-free search finds a free port, and all lower ones are used |
| `ControllerPorts.ConnectFacts` | ios/RustyNES/GameControllerManager.swift:205-233 | A connect adds one pad on the preferred port, sends every mask afresh where needed, changes no other pad and no unowned port |
| `ControllerPorts.DisconnectFacts` | ios/RustyNES/GameControllerManager.swift:235-246 | A disconnect removes exactly that pad, zeroes its port, settles the timer and leaves the other pads' sent masks right |
| `ControllerPorts.AssignFacts` | ios/RustyNES/GameControllerManager.swift:252-273 | A reassignment swaps with the owner if there is one, otherwise moves; the owned ports afterwards; unowned ports keep their mask; memory and settings list follow |
| `ControllerPorts.ReleasedIffNotStranded` | ios/RustyNES/GameControllerManager.swift:252-273 | A step keeps every unowned port at mask 0 if and only if it is not a move to a free port away from a port with a non-empty mask |
| `ControllerPorts.IdlePortsStayReleased` | ios/RustyNES/GameControllerManager.swift:205-273 | On every run without such a move unowned ports stay at 0 |
| `ControllerPorts.EvaluateFacts` | ios/RustyNES/GameControllerManager.swift:277-358 | One pad's evaluation makes its masks those of its reading, sends them, keeps every other port right and starts or stops the timer to fit |
| `ControllerPorts.PersistedFacts` | ios/RustyNES/GameControllerManager.swift:389-395 | Persisting records the port of every named pad whose name is its own and changes no other name |
| `ControllerPorts.SortFacts` | ios/RustyNES/GameControllerManager.swift:362-372 | The settings list is a permutation of the managed pads in port order |
| `ControllerPorts.EventKeepsAgreement` | ios/RustyNES/GameControllerManager.swift:205-273 | While vendor names are distinct, the saved map agrees with every managed pad after every step |
| `ControllerPorts.RunKeepsAgreement` | ios/RustyNES/GameControllerManager.swift:205-273 | The same on every run of pads with distinct names |
| `ControllerPorts.ReplugReclaimsPort` | ios/RustyNES/GameControllerManager.swift:376-395 | A named pad that disconnects and later reconnects, after any steps that connect no pad of its name, gets its old port back if and only if that port is free |
| `ControllerPorts.ReplugReclaimsPortOnAnyRun` | ios/RustyNES/GameControllerManager.swift:205-395 | The same from a manager without pads, after any run of pads with distinct names |
| `PadLaws.PadButtons` | ios/RustyNES/GameControllerManager.swift:277-306 | On every run a pad holds exactly the buttons its pressed ones are mapped to and those its stick leans to by more than half; on turbo are A and B exactly when a pressed button is mapped to theirs |
| `PadLaws.PortCarries` | ios/RustyNES/GameControllerManager.swift:328-334 | The mask last sent to a pad's port has a button exactly when it is held, or on turbo while the phase is on |
| `PadLaws.TimerRunsIff` | ios/RustyNES/GameControllerManager.swift:337-358 | On every run the timer runs exactly while some pad is on turbo |
| `PadLaws.ListShowsPads` | ios/RustyNES/GameControllerManager.swift:362-372 | On every run the settings list has exactly one row for every managed pad, with its identity, name and port, in strict port order |
| `PadLaws.PreferredIs` | ios/RustyNES/GameControllerManager.swift:376-383 | A new controller gets the port remembered for its name if that is below four and free, else the lowest free one |
| `PadLaws.FireFlipsPhase` | ios/RustyNES/GameControllerManager.swift:337-358 | A timer fire turns the phase over and changes nothing else but the masks: held and turbo on the on-phase, held on the other; without a timer it changes nothing |
| `PadLaws.TurboPulses` | ios/RustyNES/GameControllerManager.swift:337-358 | After n timer fires the phase has turned over n times, every pad's port carries its held buttons, with turbo on every second fire, and nothing else has changed |
| `PadLaws.ConnectTakes` | ios/RustyNES/GameControllerManager.swift:205-233 | An extended controller not managed yet is accepted exactly while there are fewer than four, comes last with its reading, and the turbo phase goes on |
| `PadLaws.DisconnectTakes` | ios/RustyNES/GameControllerManager.swift:235-246 | A disconnection takes exactly that controller away; the phase goes on while turbo is held, else it is off |
| `PadLaws.AssignTakes` | ios/RustyNES/GameControllerManager.swift:252-273 | A reassignment inside 0..3 moves the controller and swaps it with the port's owner, any other changes nothing; masks of buttons, remap and phase stay |
| `PadLaws.ChangeTakes` | ios/RustyNES/GameControllerManager.swift:217-219 | A changed reading is taken over by its pad alone; the phase goes on while turbo is held |
| `PadLaws.RemapTakes` | ios/RustyNES/GameControllerManager.swift:142-147 | A new remap is taken over and changes no controller, reading or port |
| `PadLaws.StrangersChangeNothing` | ios/RustyNES/GameControllerManager.swift:235-256 | Events about a controller that is not managed change nothing |
| `ControllerManager.GameControllerManager.constructor` | ios/RustyNES/GameControllerManager.swift:142-147 | A fresh manager agrees with its memory and has released ports; it satisfies the invariant exactly when no saved port is negative |
| `ControllerManager.GameControllerManager.Connect` | ios/RustyNES/GameControllerManager.swift:205-233 | The mutable connect computes exactly the connect step and keeps the invariant |
| `ControllerManager.GameControllerManager.Disconnect` | ios/RustyNES/GameControllerManager.swift:235-246 | The mutable disconnect computes exactly the disconnect step |
| `ControllerManager.GameControllerManager.Assign` | ios/RustyNES/GameControllerManager.swift:252-273 | The mutable reassignment, out-of-range and unknown ids included, computes exactly the reassignment step |
| `ControllerManager.GameControllerManager.ReadMasks` | ios/RustyNES/GameControllerManager.swift:277-306 | The loop over the physical buttons and the stick yields exactly the masks of the pressed and remapped buttons |
| `ControllerManager.GameControllerManager.Evaluate` | ios/RustyNES/GameControllerManager.swift:277-306 | Evaluating one pad object computes the evaluation step |
| `ControllerManager.GameControllerManager.UpdateTurboTimer` | ios/RustyNES/GameControllerManager.swift:337-358 | Starting or stopping the shared timer; stopping re-sends every pad with the phase off |
| `ControllerManager.GameControllerManager.TimerFires` | ios/RustyNES/GameControllerManager.swift:337-358 | A timer fire computes exactly the timer step, which flips the phase (`FireFlipsPhase`) |
| `ControllerManager.GameControllerManager.SetRemap` | ios/RustyNES/GameControllerManager.swift:142-147 | A remap edit re-evaluates every pad |
| `ControllerManager.GameControllerManager.InputChanged` | ios/RustyNES/GameControllerManager.swift:205-233 | A changed reading re-evaluates its pad |
| `NesButtons.Extensional` | ios/RustyNES/NesButtons.swift:28-66 | Two masks with the same pressed buttons are equal |
| `NesButtons.Set` | ios/RustyNES/NesButtons.swift:28-66 | Setting one button changes that button and no other |
| `NesButtons.Union` | ios/RustyNES/NesButtons.swift:28-66 | The union presses exactly the buttons of either mask |
| `NesButtons.ShiftOrder` | ios/RustyNES/NesButtons.swift:28-66 | Bit i is the i-th button in the console's shift-out order, A first |
| `InputFanIn.CoreFollowsInput` | ios/RustyNES/AppModel.swift:442-458 | On every run the core carries, on each port pushed since its game opened, the last touch mask joined with the last pad mask (port 0) or the last pad mask |
| `InputFanIn.LastMasksAreRemembered` | ios/RustyNES/AppModel.swift:250-458 | On every run the masks remembered are the last ones told, and there is a core exactly while a game is open |
| `InputFanIn.OpeningAgreesIffNothingHeld` | ios/RustyNES/AppModel.swift:277-304 | Right after opening a game the core's masks agree with the input exactly when nothing is held |
| `InputPath.PadEventFollows` | ios/RustyNES/GameControllerManager.swift:205-373 | Every event of the pad manager keeps the core in agreement with the merged input where it agreed, and brings it into agreement on the ports it sends afresh |
| `InputPath.CoreCarriesThePads` | ios/RustyNES/AppModel.swift:250-458 | End to end, on every joint run of pads, touches and games: the core carries, on every owned port pushed since the game opened, that pad's held buttons with turbo on the on-phase, and on the first port the touched ones too |
| `InputFanIn.AppModel.SetTouchMask` | ios/RustyNES/AppModel.swift:442-447 | Records the touch mask, pushes port 0, and ticks the haptic exactly when a button is newly pressed |
| `InputFanIn.AppModel.OnMaskChanged` | ios/RustyNES/AppModel.swift:250-256 | Records a pad mask and pushes its port |
| `InputFanIn.HitTest` | ios/RustyNES/ControlPadLayout.swift:151-186 | The step-by-step mask presses a button exactly when the point is in one of that button's areas |
| `InputFanIn.Regions` | ios/RustyNES/ControlPadLayout.swift:151-186 | The regions written out in fractions of the surface |
| `InputFanIn.PillRegion` | ios/RustyNES/ControlPadLayout.swift:122-135 | The menu pill written out |
| `InputFanIn.DrawnButtonsAreHit` | ios/RustyNES/ControlPadLayout.swift:95-186 | Every drawn button is hit where it is drawn, the arms of the cross outside the dead zone |
| `InputFanIn.OppositesExclude` | ios/RustyNES/ControlPadLayout.swift:151-186 | No point presses opposite directions |
| `InputFanIn.MultiTouchPadView.Recompute` | ios/RustyNES/MultiTouchControlPad.swift:364-427 | The loop over live touches yields the joined mask of the fingers the logo pill does not own, and the app model is told only of changes |
| `InputFanIn.MultiTouchPadView.TouchesBegan` | ios/RustyNES/MultiTouchControlPad.swift:364-427 | Fingers that land on the pill become pill-owned, and the mask follows the live touches |
| `InputFanIn.MultiTouchPadView.TouchesMoved` | ios/RustyNES/MultiTouchControlPad.swift:364-427 | Sliding changes the mask and no ownership |
| `InputFanIn.MultiTouchPadView.TouchesEnded` | ios/RustyNES/MultiTouchControlPad.swift:364-427 | Ended fingers are no longer pill-owned, and the mask follows the remaining touches |
| `InputFanIn.FingersJoin` | ios/RustyNES/MultiTouchControlPad.swift:364-427 | Adding a finger joins its own mask to the others' |
| `InputFanIn.PillOwnedFingerIsInert` | ios/RustyNES/MultiTouchControlPad.swift:364-427 | A finger that began on the pill presses nothing wherever it slides |
| `SaveSlots.StoredCopy` | ios/RustyNES/SaveStateManager.swift:103-155 | What a write or an import leaves for every outcome of its three file operations, with the other slots untouched |
| `SaveSlots.ClearedCopy` | ios/RustyNES/SaveStateManager.swift:158-162 | Clearing empties the slot, whatever sidecars stay behind, and no other |
| `SaveSlots.SaveStateManager.ImportRemote` | ios/RustyNES/SaveStateManager.swift:137-155 | An import stores the remote stamp, not "now", and reports whether the blob was written |
| `SaveSlots.SaveStateManager.Write` | ios/RustyNES/SaveStateManager.swift:103-118 | A local save stamps "now" |
| `SaveSlots.SaveStateManager.Slot` | ios/RustyNES/SaveStateManager.swift:81-100 | The slot read: empty without a blob, the sidecar's stamp before the file date |
| `CloudSync.UploadCompletion` | ios/RustyNES/CloudSaveStateSync.swift:142-200 | A completion changes no status when its game is not current and only its own slot's otherwise; a cleared slot gets no status; it becomes synced exactly when the upload succeeded and the local stamp equals the one sent |
| `CloudSync.UploadRefused` | ios/RustyNES/CloudSaveStateSync.swift:142-175 | An upload refused by the account check, or of an emptied slot, ends local-only, or with no status if the slot is empty, and touches nothing else |
| `CloudSync.UploadsSendTheirStamp` | ios/RustyNES/CloudSaveStateSync.swift:163-200 | On every run the stamp an upload compares at its end is the one in the record it sent |
| `CloudSync.StatusesStayBackedIff` | ios/RustyNES/CloudSaveStateSync.swift:94-297 | A step keeps "a status belongs to a slot with a copy, or to one waiting for its upload and then says no more than that" if and only if it is not the end of an import into an empty slot |
| `CloudSync.StatusesStayBacked` | ios/RustyNES/CloudSaveStateSync.swift:94-297 | The same over every run |
| `StatusLaws.OpeningShowsLocalOnly` | ios/RustyNES/CloudSaveStateSync.swift:94-118 | Right after opening a game with sync on the slots with a status are exactly those of 0..3 with a copy, and each is local only |
| `StatusLaws.StatusesFollow` | ios/RustyNES/CloudSaveStateSync.swift:94-301 | The status of every slot after every step, from what the slot and the step are |
| `StatusLaws.SyncedIff` | ios/RustyNES/CloudSaveStateSync.swift:142-297 | A slot shows synced after a step exactly if the step earns it, or it did before and the step changes nothing for it |
| `StatusLaws.SyncedIsEarned` | ios/RustyNES/CloudSaveStateSync.swift:94-301 | On every run a slot shows synced only if, since its game was opened, an upload was accepted with the stamp the slot then had, a fetched record was not newer than its copy, or an import into it ended well |
| `TaskLaws.EveryStepFollows` | ios/RustyNES/CloudSaveStateSync.swift:94-301 | Game, opt-in and account are the last ones told; files change only by a save, a clear and an import's write; uploads and deletes start, advance and end as the steps say, each under a number of its own |
| `TaskLaws.PullsFollow` | ios/RustyNES/CloudSaveStateSync.swift:94-297 | Which steps start a reconciliation, and where its own step takes one, from every point it can be suspended at |
| `TaskLaws.UploadThenImport` | ios/RustyNES/CloudSaveStateSync.swift:163-297 | What one device uploads of a slot and another imports is the slot's blob, stamp and thumbnail, and its frame if known |
| `ClearedSlots.BlankStaysIff` | ios/RustyNES/CloudSaveStateSync.swift:94-297 | In a step that does not save it, late uploads and other clears included, a slot without copy and status stays so if and only if the step is neither the write nor the end of an import into it |
| `ClearedSlots.ClearingBlanks` | ios/RustyNES/AppModel.swift:741-746 | A successful clear leaves its slot without copy and status |
| `ClearedSlots.ClearedSlotStaysBlankIff` | ios/RustyNES/CloudSaveStateSync.swift:94-297 | Over every run without a save of it, a cleared slot stays without copy and status at every state if and only if no step revives it |
| `ClearedSlots.ClearLastsIff` | ios/RustyNES/CloudSaveStateSync.swift:220-297 | A cleared slot stays so in every future without a save or a fetch of it if and only if, now, no reconciliation holds a record of it, is importing one or has just imported one |
| `CloudSync.StalePullChangesStatusesIff` | ios/RustyNES/CloudSaveStateSync.swift:220-301 | A step of a reconciliation for a game no longer on screen changes a status if and only if it is a failed account check and some status is not already unavailable |
| `CloudSync.OthersLeaveTheSlotAlone` | ios/RustyNES/CloudSaveStateSync.swift:94-297 | A slot's files change only by its own save, clear or import |
| `CloudSync.ImportKeepsMaximumIff` | ios/RustyNES/CloudSaveStateSync.swift:258-297 | After an import the slot holds the record; its stamp is the maximum of both if and only if the local copy at that moment is not newer |
| `CloudSync.UndisturbedPullTakesTheMaximum` | ios/RustyNES/CloudSaveStateSync.swift:258-297 | From compare to import, across any interleaving without a save, clear or other import of the slot, the slot ends with the newer copy and the maximum stamp |
| `CloudSync.SaveDuringImportIsLost` | ios/RustyNES/CloudSaveStateSync.swift:258-297 | A newer save made while the import is suspended is overwritten and shown synced |
| `ClearedSlots.ClearDuringImportIsUndone` | ios/RustyNES/CloudSaveStateSync.swift:258-297 | A slot cleared while an import into it is suspended comes back and is shown synced |
| `ClearedSlots.ClearBeforeImportIsUndone` | ios/RustyNES/CloudSaveStateSync.swift:235-297 | So does a slot cleared while a fetched record of it is waiting its turn, with no import suspended |
| `CloudSync.ReconciliationMerges` | ios/RustyNES/CloudSaveStateSync.swift:220-297 | An uninterrupted reconciliation, results in any order and any writes failing, gives every fetched slot its merged copy and status and touches nothing else |
| `CloudSync.MergeIsStable` | ios/RustyNES/CloudSaveStateSync.swift:258-297 | After a merge whose writes succeed the same record is not pulled again and shows the same status |
| `CloudSync.SecondReconciliationChangesNothing` | ios/RustyNES/CloudSaveStateSync.swift:220-297 | After one whose writes succeed, a second reconciliation against the same cloud, in any order, changes no file and no status |
| `CloudConvergence.ConvergedStaysIff` | ios/RustyNES/CloudSaveStateSync.swift:258-297 | In a step without a new save of the slot, whichever file operations fail, a device holding the greatest copy keeps it if and only if the step neither writes another copy there nor clears the slot or its stamp |
| `CloudConvergence.SettledStaysIff` | ios/RustyNES/CloudSaveStateSync.swift:220-297 | A device holding it with no import of another copy suspended stays so, whatever older records are fetched or still in hand, if and only if its slot is not cleared and no import into it loses its stamp |
| `CloudConvergence.GreatestStaysIff` | ios/RustyNES/CloudSaveStateSync.swift:142-297 | In a step of any device or of the store without a new save of the slot, the greatest record stays the greatest if and only if the step does not leave, by failing half way, a copy with a greater stamp |
| `CloudConvergence.StaysConvergedIff` | ios/RustyNES/CloudSaveStateSync.swift:220-297 | Over a whole run of the system a converged device keeps the copy if and only if the run neither writes another copy on it nor clears it |
| `CloudConvergence.SafeIffSettled` | ios/RustyNES/CloudSaveStateSync.swift:220-297 | A converged device keeps the copy in every future without new saves of the slot that does not disturb its own slot if and only if no import of another copy is suspended on it now |
| `CloudConvergence.DevicesConverge` | ios/RustyNES/CloudSaveStateSync.swift:142-297 | Over every interleaving of n devices without new saves or inflated stamps of the slot, with older records fetched, uploaded and deleted meanwhile and other devices clearing it, every device that reconciles with the greatest record, no import of another copy being suspended then, and is not disturbed later ends with its blob and stamp |
| `CloudConvergence.EveryReconciliationSettles` | ios/RustyNES/CloudSaveStateSync.swift:220-297 | From a state without stale records in hand, while the store keeps the greatest copy, every reconciliation is of that kind |
| `CloudConvergence.AllDevicesAgree` | ios/RustyNES/CloudSaveStateSync.swift:220-297 | Once all have, and while no older upload and no delete lands, all hold the cloud's copy |
| `SavePropagation.SaveReachesTheOther` | ios/RustyNES/CloudSaveStateSync.swift:142-297 | A save on one device, eleven steps later, is in the store and on another device whose copy was older, with its blob and stamp, and both show it synced |
| `SavePropagation.FetchBrings` | ios/RustyNES/CloudSaveStateSync.swift:228-247 | A fetch brings exactly what the store holds of the game's four slots |
| `SavePropagation.StoreMoves` | ios/RustyNES/CloudSaveStateSync.swift:187-214 | A landing puts exactly the sent record into the store, a delete takes its slot out |
| `CloudConvergence.CloudKeepsTheCopyIff` | ios/RustyNES/CloudSaveStateSync.swift:187-214 | The store keeps the greatest copy in a step if and only if no older upload and no delete of the slot lands |
| `CloudConvergence.CloudStaysIff` | ios/RustyNES/CloudSaveStateSync.swift:187-214 | Over every such run the store keeps it at every state if and only if none ever lands |
| `CloudConvergence.CloudStampKeptIff` | ios/RustyNES/CloudSaveStateSync.swift:187-214 | No step of any kind takes a slot out of the store or lowers its stamp, except the landing of an older upload or of a delete |
| `CloudConvergence.StaleImportUndoesConvergence` | ios/RustyNES/CloudSaveStateSync.swift:258-297 | A device reconciles the newest record, shows it synced, and ends on an older one whose import was suspended |
| `CloudConvergence.ReopeningKeepsTheImport` | ios/RustyNES/CloudSaveStateSync.swift:94-256 | Opening the game again during an import starts a second reconciliation beside it |
| `CloudConvergence.LateLandingLowersTheCloud` | ios/RustyNES/CloudSaveStateSync.swift:187-200 | Two uploads landing in the wrong order leave the older copy in the cloud |
| `CloudSyncObject.CloudSaveStateSync.SetCurrentGame` | ios/RustyNES/CloudSaveStateSync.swift:94-118 | Opening or closing a game on the mutable object computes the step that `OpeningShowsLocalOnly` and `PullsFollow` describe: statuses reset and seeded, a reconciliation started |
| `CloudSyncObject.CloudSaveStateSync.SaveSlot` | ios/RustyNES/AppModel.swift:715-723 | A local save and the upload it starts |
| `CloudSyncObject.CloudSaveStateSync.DeleteSlot` | ios/RustyNES/AppModel.swift:741-746 | A local clear and the delete it starts |
| `CloudSyncObject.CloudSaveStateSync.CompleteUpload` | ios/RustyNES/CloudSaveStateSync.swift:142-159 | The status an upload's completion leaves |
| `CloudSyncObject.CloudSaveStateSync.UploadAccountAnswered` | ios/RustyNES/CloudSaveStateSync.swift:163-186 | An upload after its account check: refused, or its record built from the slot as it is now |
| `CloudSyncObject.CloudSaveStateSync.UploadStoreAnswered` | ios/RustyNES/CloudSaveStateSync.swift:142-200 | An upload after the store's answer |
| `CloudSyncObject.CloudSaveStateSync.SetEnabled` | ios/RustyNES/CloudSaveStateSync.swift:69-75 | The opt-in toggle starts an account check |
| `CloudSyncObject.CloudSaveStateSync.StartReconcile` | ios/RustyNES/CloudSaveStateSync.swift:220-222 | A reconciliation starts only while enabled |
| `CloudSyncObject.CloudSaveStateSync.ReconcileAccountAnswered` | ios/RustyNES/CloudSaveStateSync.swift:128-136 | A reconciliation or a toggle after its account check |
| `CloudSyncObject.CloudSaveStateSync.RecordsFetched` | ios/RustyNES/CloudSaveStateSync.swift:228-237 | A reconciliation after its fetch, failed or not |
| `CloudSyncObject.CloudSaveStateSync.HandleResult` | ios/RustyNES/CloudSaveStateSync.swift:258-297 | One fetched result up to its suspension: compare, then synced, local-only or an import |
| `CloudSyncObject.CloudSaveStateSync.HandleAllResults` | ios/RustyNES/CloudSaveStateSync.swift:220-297 | The result loop on the mutable store merges every fetched slot, leaves the others, and writes nothing when nothing is newer |
| `FramePacing.Coordinator.Step` | ios/RustyNES/MetalGameView.swift:128-168 | The budgeted loop runs exactly the whole frames owed, at most two, and clamps the rest |
| `FramePacing.Coordinator.ResetPacing` | ios/RustyNES/MetalGameView.swift:172-175 | A reset forgets the timestamp and the debt |
| `FramePacing.CallbackFacts` | ios/RustyNES/MetalGameView.swift:73-168 | One callback: debt within 0 and four periods, at most two frames, and frames, debt and discarded time add up |
| `FramePacing.CreditIs` | ios/RustyNES/MetalGameView.swift:128-150 | The first callback credits nothing, a gap up to a quarter of a second itself, a longer or a negative one a period |
| `FramePacing.Conservation` | ios/RustyNES/MetalGameView.swift:128-175 | On every run of callbacks and resets: frames × period + debt + discarded = starting debt + credited time |
| `FramePacing.WindowBound` | ios/RustyNES/MetalGameView.swift:128-168 | Any window runs at most four frames more than the time credited in it allows, and falls short by at most four and what was discarded |
| `FramePacing.SmoothRunIsExact` | ios/RustyNES/MetalGameView.swift:145-167 | When every callback credits at most two periods, nothing is discarded and the frames are exactly the whole frames in the starting debt and the credited time |
| `FramePacing.RefreshRateIndependence` | ios/RustyNES/MetalGameView.swift:128-168 | Two steady callback sequences spanning the same time run the same number of frames, the floor of 60.0988 times the seconds |
| `FramePacing.FourCallbacksRecover` | ios/RustyNES/MetalGameView.swift:145-167 | From any reachable debt any four or more callbacks crediting at most one period each leave less than one period of debt |
| `FramePacing.ThreeCallbacksAreNotEnough` | ios/RustyNES/MetalGameView.swift:145-167 | One callback a quarter of a second after the first reaches the full backlog, and three more crediting a period each leave a period of debt |
| `FramePacing.PaidOffIff` | ios/RustyNES/MetalGameView.swift:145-167 | After n callbacks crediting at most one period each the debt is below a period if and only if starting debt and credited time are less than 2n + 1 periods |
| `ScriptedExport.EmulatorCore.Tick` | ios/RustyNES/EmulatorCore.swift:194-216 | One tick: inject, run the frame, finalise, in that order, and nothing while paused or detached |
| `ScriptedExport.EmulatorCore.TasStartExport` | ios/RustyNES/EmulatorCore.swift:740-754 | Starting an export re-arms the recorder at power-on; an empty table is ignored |
| `ScriptedExport.EmulatorCore.TasStop` | ios/RustyNES/EmulatorCore.swift:768-774 | A stop asks for finalisation exactly when an export was active |
| `ScriptedExport.EmulatorCore.TasTakeExportedMovie` | ios/RustyNES/EmulatorCore.swift:758-764 | A poll hands out the finished movie and forgets it |
| `ScriptedExport.EmulatorCore.TasAdvanceIfActive` | ios/RustyNES/EmulatorCore.swift:780-796 | Injects the mask at the cursor and flags the last authored frame |
| `ScriptedExport.EmulatorCore.TasFinalizeExportIfPending` | ios/RustyNES/EmulatorCore.swift:800-814 | Stops the recorder and keeps the movie for the host |
| `ScriptedExport.ExportRecordsTheTable` | ios/RustyNES/EmulatorCore.swift:194-216 | Over every interleaving of ticks, live input, pauses, renderer loss and polls: before the last authored frame the recording is the injected prefix and nothing is delivered; afterwards exactly one movie is, whose player-1 stream is the table |
| `ScriptedExport.ExportIsExact` | ios/RustyNES/EmulatorCore.swift:740-814 | The same for an export started in any state |
| `ScriptedExport.FinishedDeliversOnce` | ios/RustyNES/EmulatorCore.swift:758-764 | A finished export hands its movie out once, whatever follows |
| `ScriptedExport.StoppedExportIsAPrefixPlusOneFrame` | ios/RustyNES/EmulatorCore.swift:768-814 | A stop after k ticks delivers one movie: the first k masks and exactly one frame of the mask port 0 holds at the next tick |
| `ScriptedExport.StartsAtPowerOn` | ios/RustyNES/EmulatorCore.swift:740-754 | An export starts with no button pressed, an empty recording and nothing delivered; an empty table starts none |
| `ScriptedExport.StopFinalizesIff` | ios/RustyNES/EmulatorCore.swift:768-774 | A stop asks for the end of the recording exactly when an export was still active |
| `ScriptedExport.SwitchesFollow` | ios/RustyNES/EmulatorCore.swift:194-216 | On every run the loop runs as the last start or pause said, and a renderer is there as the last attach or detach said |
| `ScriptedExport.StandsStill` | ios/RustyNES/EmulatorCore.swift:194-216 | A tick while paused or without a renderer changes nothing |
| `ScriptedExport.PortsFollow` | ios/RustyNES/EmulatorCore.swift:194-216 | On every run each port carries the last mask set for it; only port 0 takes injected masks, and only while an export is active |
| `ScriptedExport.CursorStaysInTable` | ios/RustyNES/EmulatorCore.swift:780-796 | While an export is active its cursor is inside the table |
| `UnifBoards.UnifBoard` | scripts/coverage/coverage.py:524-537 | The loop terminates on arbitrary bytes and returns the specified board |
| `UnifBoards.Le32RoundTrip` | scripts/coverage/coverage.py:524-537 | A 32-bit little-endian length is read back |
| `UnifBoards.UnifRoundTrip` | scripts/coverage/coverage.py:524-537 | For every chunk list behind a 32-byte header, with up to seven stray bytes after it, the parser returns the first MAPR body up to its first NUL, or none without a MAPR |
| `UnifBoards.BoardNameReadsBack` | scripts/coverage/coverage.py:524-537 | The name written into the first MAPR chunk, with or without a NUL and padding, comes back; without the magic number there is none |
| `RankCandidates.Rank` | scripts/coverage/coverage.py:838-857 | The result has min(max(count,1), distinct titles) candidates, one per title: the preferred one of its title, in order of preference (with "[!]" first, then without a bad-dump mark, then shorter, then earlier), and every candidate of an omitted title comes after all of them |
| `RankCandidates.CleanIfAny` | scripts/coverage/coverage.py:838-857 | A chosen candidate has "[!]" if any of its title has; among equally clean ones it has no bad-dump mark if one has none, and is then a shortest and the earliest |
| `RankCandidates.StableOrderAscending` | scripts/coverage/coverage.py:838-857 | The stable sort orders by score and then by place |
| `RankCandidates.NextIsBestIffUnseen` | scripts/coverage/coverage.py:838-857 | In sorted order a candidate is its title's best if and only if its title is not yet seen |
| `RankCandidates.OptimalIsUnique` | scripts/coverage/coverage.py:838-857 | That specification has exactly one answer |
| `LibraryIndex.ScanLibrary` | scripts/coverage/coverage.py:588-636 | The nested loops compute the index of the hits in walk order, skipped and missing directories left out |
| `LibraryIndex.InesReadsBack` | scripts/coverage/coverage.py:94-104 | A plain header written for a mapper below 256 reads back as that mapper, submapper 0 |
| `LibraryIndex.Nes2ReadsBack` | scripts/coverage/coverage.py:94-113 | A NES 2.0 header written for a mapper below 4096 and a submapper below 16 reads back as both |
| `LibraryIndex.NoMapperIff` | scripts/coverage/coverage.py:94-104 | A header has no mapper exactly when it is short or its magic number is another |
| `LibraryIndex.WalkIsOrderly` | scripts/coverage/coverage.py:621-629 | The walk goes through directories and files in order and leaves out exactly those below a target or git directory |
| `LibraryIndex.MergeIndex` | scripts/coverage/coverage.py:666-681 | The merge loops concatenate the lists key by key and add the counters |
| `LibraryIndex.ScanIsIncremental` | scripts/coverage/coverage.py:588-681 | Scanning r1 then r2 is merging the scans of r1 and r2: same lists, same counters, for any file trees |
| `LibraryIndex.IndexHoldsEveryRecord` | scripts/coverage/coverage.py:602-619 | The index holds under each mapper and board exactly its records in order, and the counters count every hit |
| `LibraryIndex.LoadIndex` | scripts/coverage/coverage.py:639-681 | Loading with a true cache and more roots gives the index of a full rescan of the known and then the new roots and writes nothing; its roots are sorted, and it is the rescan of those up to the order within each list; without a readable cache it scans and writes, or gives up if told to |
| `LibraryIndex.ScanOrderIsFree` | scripts/coverage/coverage.py:588-636 | Scanning the same roots in another order gives the same counters and, under each key, the same records up to order |
| `LibraryIndex.RepeatedRootIff` | scripts/coverage/coverage.py:588-636 | A root scanned twice gives the records of one scan if and only if it has none |
| `Screenshots.Corpus.Categorize` | scripts/coverage/coverage.py:1027-1080 | The command completes exactly when nothing is in its way; then every directory of a core or curated mapper is in the external tree only, of a best-effort one in the best-effort tree only, every other where it was, no flat PNG is left to move, the contents are exactly those of `RunItems`, no file is lost if and only if no two different ones go to one place, and a settled corpus is unchanged |
| `Screenshots.RunCompletesIff` | scripts/coverage/coverage.py:1027-1080 | A run over sorted listings completes if and only if no plain file that stays has the place of a directory a flat PNG or a misplaced directory will go to, and the place of "...png" above the tree is free |
| `Screenshots.RunSettles` | scripts/coverage/coverage.py:1027-1080 | With nothing in the way one run completes and reaches the settled state |
| `Screenshots.CompletedRunSettles` | scripts/coverage/coverage.py:1027-1080 | A run that completes settles, whatever the order of its listings |
| `Screenshots.SecondRunMovesNothing` | scripts/coverage/coverage.py:1027-1080 | With nothing in the way a second run, whatever it lists, changes nothing |
| `Screenshots.RunItems` | scripts/coverage/coverage.py:1027-1080 | The exact contents of both trees after a completed run: which file each item of each directory is, for flat, moved and merged ones, and what lies beside the trees |
| `Screenshots.RunSorts` | scripts/coverage/coverage.py:1027-1080 | The same by name and tier: where every item and every directory ends |
| `TierNames.CategoryMeans` | scripts/coverage/coverage.py:502-517 | A directory belongs in the external tree exactly if its number is a core or curated one and it is not special, in the best-effort tree if it is a best-effort one and neither |
| `TierNames.NumberedIff` | scripts/coverage/coverage.py:698-703 | The number of a name is the value of the decimal digits behind its first "mapper-" that is followed by a digit |
| `TierNames.DecimalReadsBack` | scripts/coverage/coverage.py:698-703 | A number printed in decimal, with any leading zeros, has its own value |
| `Screenshots.RunKeepsEveryFileIff` | scripts/coverage/coverage.py:1037-1080 | With nothing in the way a run loses no item, no flat file and no file beside the trees if and only if no two files with different data go to one place |
| `Screenshots.FinalIsASource` | scripts/coverage/coverage.py:1037-1080 | Nothing appears: every item a run leaves somewhere was headed there |
| `Screenshots.PlainFilesStay` | scripts/coverage/coverage.py:1044-1080 | The plain files of both trees stay as they are, except the flat PNGs that are moved |
| `Screenshots.PlainFileStopsTheRun` | scripts/coverage/coverage.py:1037-1053 | A plain file "a" beside "a.png" stops the command |
| `Screenshots.KeptPngStopsTheRun` | scripts/coverage/coverage.py:1037-1053 | The flat PNG "..png" beside "..png.png" stops it too |
| `Screenshots.MergeKeepsItemsIff` | scripts/coverage/coverage.py:1037-1080 | A directory merge keeps every item if and only if shared names hold equal data |
| `Screenshots.FlatPngStaysIff` | scripts/coverage/coverage.py:1044-1053 | A completed run leaves a flat PNG where it is if and only if its name is ".png" or "..png" |
| `MirrorLinks.Collapse` | scripts/process_raw_nesdev_pages.py:108-121 | Character by character, name characters stay and all others become underscores |
| `MirrorLinks.Stats.RewriteAttributeValue` | scripts/process_raw_nesdev_pages.py:124-166 | The branching rewrite returns the specified value, which keeps the link's target (`RewriteKeepsTheTarget`), and increments exactly its rule's counter (`RewriteCounts`) |
| `LinkTargets.RewriteKeepsTheTarget` | scripts/process_raw_nesdev_pages.py:124-166 | Resolved against the upstream site, every rewritten value that is not local points to where the original did, if and only if it is not a network-path reference on a site without https; a local one names its page's file and keeps the fragment |
| `LinkTargets.RewriteCounts` | scripts/process_raw_nesdev_pages.py:124-166 | Which of the six counters each shape of value increments, and that no other value does |
| `LinkTargets.NameCharacters` | scripts/process_raw_nesdev_pages.py:108-121 | The characters a file name keeps, by code point |
| `MirrorLinks.RewriteLeavesNoSlash` | scripts/process_raw_nesdev_pages.py:124-166 | A rule is counted if and only if the value changes, and a rewritten value does not start with a slash |
| `MirrorLinks.NeverStartsWithSlash` | scripts/process_raw_nesdev_pages.py:124-166 | No result starts with a slash, whatever the value |
| `MirrorLinks.RewriteIsIdempotent` | scripts/process_raw_nesdev_pages.py:124-166 | Rewriting a rewritten value changes and counts nothing |
| `MirrorLinks.HttpBaseLinks` | scripts/process_raw_nesdev_pages.py:124-166 | For an http(s) base all three: no leading slash, counted exactly on change, idempotent |
| `MirrorLinks.LocalLinksExist` | scripts/process_raw_nesdev_pages.py:135-158 | A page link becomes local if and only if it has no query and its file exists, with its fragment kept |
| `MirrorLinks.AttributePass` | scripts/process_raw_nesdev_pages.py:184-191 | The substitution over a whole text, counters included |
| `LinkTargets.PassRewritesTheLinks` | scripts/process_raw_nesdev_pages.py:184-191 | A text cut at the leftmost src and href attributes keeps every character between them, and exactly their values are rewritten and counted |
| `LinkTargets.EveryTextIsCut` | scripts/process_raw_nesdev_pages.py:59 | Every text is cut that way |
| `MirrorLinks.PassIsIdempotent` | scripts/process_raw_nesdev_pages.py:184-191 | A second pass over the pass's own output changes and counts nothing |
| `MirrorLinks.CountersAddUp` | scripts/process_raw_nesdev_pages.py:184-191 | The counters add up to the number of changed attribute values |
| `PageUrls.TwoWordSearchNeverHits` | scripts/download_missing_nesdev_pages.py:97-113 | A two-word namespace is never found, because its first word is one |
| `PageUrls.SplitRejoins` | scripts/download_missing_nesdev_pages.py:97-113 | Namespace, underscore and title put back together are the stem |
| `PageUrls.SplitsIff` | scripts/download_missing_nesdev_pages.py:97-113 | A stem is split if and only if it starts with a one-word namespace and an underscore |
| `PageUrls.CandidateNames` | scripts/download_missing_nesdev_pages.py:116-127 | The main candidate collapses back to exactly the stem's file name |
| `PageUrls.CandidateIs` | scripts/download_missing_nesdev_pages.py:116-127 | The main candidate is the page below the wiki's root, with a colon behind its namespace if the stem starts with one |
| `PageUrls.QuoteIs` | scripts/download_missing_nesdev_pages.py:127 | Quoting goes character by character and keeps the unreserved ones, colon and slash |
| `PageUrls.TitleStartIs` | scripts/download_missing_nesdev_pages.py:219-232 | The title stands behind the last slash after the first "://", and a URL without either has none |
| `PageUrls.DigitPairDotVariants` | scripts/download_missing_nesdev_pages.py:201-216 | One variant per pair found, the middle underscore as a dot |
| `PageUrls.PairIsTriedIff` | scripts/download_missing_nesdev_pages.py:201-216 | A pair is tried if and only if it does not overlap an earlier tried one |
| `PageUrls.EveryPairIsTriedIff` | scripts/download_missing_nesdev_pages.py:201-216 | Every pair of a URL is tried if and only if no two of its pairs overlap |
| `PageUrls.OverlappingPairIsMissed` | scripts/download_missing_nesdev_pages.py:208-210 | The second dot of 1.2.3 is never guessed |
| `PageUrls.SubpageVariants` | scripts/download_missing_nesdev_pages.py:219-246 | One variant per underscore of the title after its last colon, from the right, as a slash |
| `PageUrls.SubpageCount` | scripts/download_missing_nesdev_pages.py:219-246 | For a candidate they number exactly the underscores of the stem's title |
| `PageUrls.FlipNames` | scripts/download_missing_nesdev_pages.py:201-246 | Turning any underscore of a candidate into punctuation keeps the file name it collapses to |
| `PageUrls.Guesses` | scripts/download_missing_nesdev_pages.py:366-386 | Every guess for a stem over letters, digits and underscores names that stem's file; the subpage guesses are distinct |
| `TraceCensus.Census` | scripts/instr_boot_census.py:29-60 | The loop terminates and its drift and two counters are the sums over the walk |
| `TraceCensus.Conservation` | scripts/instr_boot_census.py:29-60 | After every step: cycles gone in R − cycles gone in D = reported drift + cycles skipped in R − cycles skipped in D |
| `TraceCensus.ExtraTripsAreHidden` | scripts/instr_boot_census.py:29-60 | For traces that differ by any number of extra loop trips on either side, the true drift less the reported one is the cycles of those trips, and each trip is counted as one fork |
| `TraceCensus.NoForksIff` | scripts/instr_boot_census.py:43-60 | The walk counts no fork if and only if the traces execute the same instructions for as long as both run |
| `TraceCensus.SameStreamDriftIsTrue` | scripts/instr_boot_census.py:29-60 | For traces of the same instructions the reported drift is the true one over the shorter trace |
| `TraceCensus.ResyncLandsOnEqualPcs` | scripts/instr_boot_census.py:43-60 | A resynchronisation lands on equal instructions at the smallest distance below 40, R first at a tie; giving up means there was none |
| `TraceCensus.ResyncThenMatch` | scripts/instr_boot_census.py:29-60 | A resynchronisation is followed by a matched step |
| `TraceCensus.ForksAddUp` | scripts/instr_boot_census.py:43-47 | The fork counters add up to the unmatched steps |
| `TraceCensus.ForkHidesDrift` | scripts/instr_boot_census.py:29-60 | A trace with one extra loop trip: five true cycles, zero reported |
| `SymbolMaps.SymbolMap.Merge` | ios/RustyNES/SymbolMap.swift:51-66 | The line loop, cap included, merges exactly the entries of the text's lines and returns the number added |
| `SymbolMaps.SymbolMap.ParseSym` | ios/RustyNES/SymbolMap.swift:70-77 | A .sym line's effect on the labels |
| `SymbolMaps.SymbolMap.ParseMlb` | ios/RustyNES/SymbolMap.swift:79-86 | A .mlb line's effect on the labels |
| `SymbolMaps.SymbolMap.ParseNl` | ios/RustyNES/SymbolMap.swift:88-95 | A .nl line's effect on the labels |
| `SymbolMaps.AddressForms` | ios/RustyNES/SymbolMap.swift:97-108 | An address reads back with any zero padding, optional dollar and bank prefix; a number beyond 16 bits is refused |
| `SymbolLines.AddressToken` | ios/RustyNES/SymbolMap.swift:97-108 | Every token with blanks, bank, dollar, sign and hex digits of either case is read as its number if it fits in 16 bits; behind a minus only zero is |
| `SymbolLines.HexValueIff` | ios/RustyNES/SymbolMap.swift:97-108 | The digits, small and capital, and nothing else |
| `SymbolLines.NumberGrows` | ios/RustyNES/SymbolMap.swift:97-108 | A number is sixteen times what stands before its last digit, and that digit |
| `SymbolLines.SymLine` | ios/RustyNES/SymbolMap.swift:70-77 | Any line with an address and a label between white space, whatever follows |
| `SymbolLines.MlbLine` | ios/RustyNES/SymbolMap.swift:79-86 | Any line with type, address and label between colons, with or without a comment |
| `SymbolLines.NlLine` | ios/RustyNES/SymbolMap.swift:88-95 | Any line with address and name between hash signs, with or without a comment |
| `SymbolLines.ShortLinesHoldNothing` | ios/RustyNES/SymbolMap.swift:70-95 | Lines with too few words or fields hold no entry |
| `SymbolLines.CommentsHoldNothing` | ios/RustyNES/SymbolMap.swift:51-66 | Blank lines and comments hold no entry, however far indented |
| `SymbolLines.BlanksDoNotMatter` | ios/RustyNES/SymbolMap.swift:51-66 | An entry is read without the blanks around its line |
| `SymbolLines.CharacterClasses` | ios/RustyNES/SymbolMap.swift:51-77 | The line ends and blanks by code point |
| `SymbolMaps.RoundTripIff` | ios/RustyNES/SymbolMap.swift:51-108 | Printing a map in any order and format and merging it into an empty map gives it back if and only if the format can hold every label |
| `SymbolMaps.PrintThenMerge` | ios/RustyNES/SymbolMap.swift:51-108 | Over existing labels, the printed map wins where both have an address |
| `SymbolMaps.MergedIsLegal` | ios/RustyNES/SymbolMap.swift:51-95 | Every label ever merged is one its format can hold |
| `SymbolMaps.TextsMergeInSequence` | ios/RustyNES/SymbolMap.swift:51-66 | Merging two joined texts is merging one after the other |
| `SymbolMaps.CapIsNeverReached` | ios/RustyNES/SymbolMap.swift:39-55 | At most 65536 addresses exist, so the cap of 200000 never truncates |

## Left out

Stated weaker than the source's promise, or under a condition:

- DevicesConverge: no import of the slot inflates a stamp by failing to write its sidecar; the exact condition is `GreatestStaysIff`.
- Guesses: stems over ASCII letters, digits and underscores, which is what the crawler's file names are made of; percent-encoding of other characters is a parameter. For a stem with an interwiki prefix the source tries another candidate first; that path is not modelled.
- PassIsIdempotent: the base contains no quotation mark, as every base derived from an attribute does.
- RunKeepsEveryFileIff: items of directories are plain files; sub-directories inside them are not modelled.
- Rank: the base-title regular expressions are a parameter; the result is given as indices into the record list.
- LoadIndex: the comparison with a rescan of its own roots is for root lists without repetitions (`RepeatedRootIff`).
- ScanLibrary: reading archives and headers is the input (a stream of hits per file).

Parameters, or not modelled:

- Floating-point rounding (times and stick positions are reals) and real clocks; save stamps are integers.
- Torn file reads: an upload's asset is read when its record is built. CloudKit errors beyond success and failure, and change tokens.
- The live controller profile: a pad carries its last reading, and an input change and its handler are one step. `playerIndex` and the teardown in `stop()`.
- The display link runs on the main run loop, so a tick is one step. Netplay ticks, `debugStep`, movie playback and the other movie calls, which run the core outside the export.
- The core itself: running a frame appends the two port masks to an armed recorder.
- Geometry uses squared distances. SwiftUI drawing, haptics and the rest of the view code.
- JSON encoding and key order, `--dry-run`, printing.
- Dropping DNS-hint tags and deriving the upstream base; document-level effects of that step.
- Percent-decoding and the word class of a regular-expression boundary are parameters. Non-ASCII digits.
- The interwiki and search fallbacks, HTTP.
- Swift characters are code points here; grapheme clusters are not formed.
- The PPU, CPU, APU, mapper and netplay crates.
