# Elsewhere: verified models of its queues, protocols and window state

Dafny models of the parts of the Elsewhere remote desktop whose correctness rests on
state kept over many events, with proofs of what they promise. `dafny verify dfyconfig.toml`
checks everything.

Most components have two layers. A value layer (a datatype for the state, a function for each
operation, a step relation for what the event loop may do next) carries the lemmas over whole
runs. A class with the source's own fields and loops carries the methods, each proved equal to
the function of the value layer, so what the lemmas say holds of the updates in place.

Beside the lemmas about whole runs, each component has lemmas that say what a step comes to in
terms of its outcome (who is answered, what is started, shown or told, what is left alone), in
both directions, with the source's constants written out. Where waiting matters they are
completed by a lemma that the wait can end: from every reachable state there is a run in which
it does (`JobsLaws.CanSettle`, `AccessLaws.RevokeReturns`, `AccessLaws.SweepEnds`,
`RecoveryLaws.CanRecover`, `Thumbnails.CanPublish`).

| files | component |
|---|---|
| `rotation.dfy` | round robin over tokens, shared by jobs and admissions |
| `jobs.dfy`, `jobs_run.dfy`, `jobs_laws.dfy`, `jobs_queue.dfy` | the accessibility scheduler's scans and refreshes, and its `run` loop |
| `admissions.dfy` | mutation permits |
| `access.dfy`, `access_laws.dfy` | the life of an access token: actions, dispatches, revocation, expiry, late authentication |
| `ownership.dfy` | which session holds input |
| `stack.dfy`, `batches.dfy` | the stacking order with minimized windows, and windows that die together |
| `frames.dfy` | maximize, fullscreen and kiosk geometry of one window |
| `desktop.dfy` | focus, minimize, re-layout, forget and kiosk over all windows |
| `families.dfy` | transient families on workspaces |
| `workspaces.dfy`, `workspaces_run.dfy`, `workspaces_laws.dfy`, `workspaces_state.dfy` | dynamic workspaces and the panels that bound them |
| `toplevels.dfy` | the window list for taskbars |
| `decode.dfy` | video admission in the viewer |
| `recovery.dfy`, `recovery_laws.dfy` | WebRTC attempts and retries |
| `reassembly.dfy` | frames in fragments |
| `thumbnails.dfy` | the thumbnail loop |
| `clipboard.dfy`, `drags.dfy` | clipboard reads and browser drags |

## What the code does not do

Four properties one could expect are false of the code as it is. Each has a concrete run or
state that shows it, and a condition under which, and only under which, the code meets it.

- Windows that die together are all forgotten before any leaves the space
  (crates/elsewhere-compositor/src/lib.rs:498-501). `Stack.BatchDrifts` is a stack that comes out
  in the wrong order; `Batches.BatchPlace` says exactly when a surviving minimized window keeps
  its place: each dead mapped window below it must have, with the dead mapped ones below that one
  counted, a mapped window to spare between; and `Batches.BatchKeeps` that the whole batch is right
  exactly when all of them do. The X11 unmap and the Xwayland exit, which forget
  and unmap one window at a time, are always right (`Desktop.State.Drop`, `Desktop.State.Disconnect`).
- A drop that arrives while another is settling replaces its batch, which is then never reported
  (`Drags.OverlapLoses`). The batches reported, with the one settling, are those asked for if and
  only if that never happens (`Drags.DropsReported`); one drop per start is enough
  (`Drags.OneDropOneEnd`).
- A floating window smaller than 64 pixels can come back from kiosk elsewhere when a window above
  it is minimized, because that one is shown again with a re-layout that clamps it
  (crates/elsewhere-compositor/src/kiosk.rs:28, `Desktop.SmallMoves`). `Desktop.BelowMinimized`
  says exactly when it does not, and `Desktop.ReturnedExactly` the same of all re-layouts there
  can be.
- A window that was never filled is not moved to `restore_rect` of its geometry by an unmaximize;
  `Frames.FillRoundTrip` says which of the two it gets.

A token that contends for a busy application can lose its place in the rotation each time it is
skipped, so bounded overtaking (`JobsRun.JobOvertaking`, `Admissions.AdmissionOvertaking`) is
for a token that has something startable at each grant.

## Model

| member | source | states |
|---|---|---|
| Rotation.BoundedOvertaking | crates/elsewhere-server/src/element_scheduler.rs:68-84 | Over any run of grants, arrivals and removals: a token that can be served at every grant and is not, sees no other token served twice, and none but those that were ahead of it |
| JobsRun.CapsHold | crates/elsewhere-server/src/element_scheduler.rs:182-201 | In every run at most 8 scans and 4 refreshes have a task, at most 2 and 1 of those stored for one application, never two tasks for one id, and a pick never meets an id in `order` without a job |
| JobsRun.ApplicationsKept | crates/elsewhere-server/src/element_scheduler.rs:161-175 | In every run a queued or running job is stored for an application that a registration of its id in that run named |
| JobsRun.RegistrationsCapped | crates/elsewhere-server/src/element_scheduler.rs:182-201 | The caps per application, said of the registrations alone: if those of each id name one application, at most 2 scans and 1 refresh registered for an application have a task |
| JobsRun.AlwaysValid | crates/elsewhere-server/src/element_scheduler.rs:161-255 | The invariant of the scheduler over every interleaving of arrivals, completions, lost tasks, aborts and prunes: `active` matches the tasks, `order` is distinct and covers `queued`, and any extra id is a refresh whose result is set |
| JobsRun.ReadersConserved | crates/elsewhere-server/src/element_scheduler.rs:161-180 | Every registered reader is queued, shares a running job, was replied to, or was dropped: exactly one of these, and replied to at most once |
| JobsRun.RepliesAreFresh | crates/elsewhere-server/src/element_scheduler.rs:202-213 | A scan's outcome goes only to readers registered before its task started; a refresh's reply is what its cell holds |
| JobsRun.NothingTakenBack | crates/elsewhere-server/src/element_scheduler.rs:161-213 | Later steps change no sent reply, no final fate of a reader and no refresh result that is set |
| JobsRun.LaunchIsMaximal | crates/elsewhere-server/src/element_scheduler.rs:182-201 | After a prune, nothing is picked if and only if no queued job may start under the caps |
| JobsRun.JobOvertaking | crates/elsewhere-server/src/element_scheduler.rs:182-201 | Bounded overtaking for scans and refreshes |
| JobsLaws.ArrivesExactly | crates/elsewhere-server/src/element_scheduler.rs:161-175 | A reader gets a refresh result that is set, shares a refresh if and only if its task still runs and somebody shares it, and waits otherwise; a queued job keeps its application and nobody else is moved |
| JobsLaws.QueuedFirst | crates/elsewhere-server/src/element_scheduler.rs:161-201 | Over any run, a job queued before another, or in front of it, is in front of it as long as both wait |
| JobsLaws.PrunesExactly | crates/elsewhere-server/src/element_scheduler.rs:176-181 | A prune drops exactly the unsettled readers that are gone, and aborts exactly the tasks nobody shares any more |
| JobsLaws.JoinsExactly | crates/elsewhere-server/src/element_scheduler.rs:202-233 | A completed task answers exactly the readers sharing it, of a refresh also those waiting, and sets the cell; a failed one drops those sharing it |
| JobsLaws.LaunchesNext | crates/elsewhere-server/src/element_scheduler.rs:182-201 | A start takes the first token in the rotation one of whose jobs may start, counted over the tasks against 8, 4, 2 and 1, and that token's first such job; the token goes behind the others and the waiting readers share the task |
| JobsLaws.NextExists | crates/elsewhere-server/src/element_scheduler.rs:182-201 | There is such a first one whenever any queued job may start |
| JobsLaws.RoundFills | crates/elsewhere-server/src/element_scheduler.rs:216-255 | From every reachable state the loop can prune and start jobs until every queued one is held back by a task of its id or a full cap |
| JobsLaws.CanSettle | crates/elsewhere-server/src/element_scheduler.rs:216-255 | No reader is stuck: from every reachable state there is a run after which it is answered or dropped, and answered unless it was dropped before or a task had failed |
| JobsQueue.Queue.Push | crates/elsewhere-server/src/element_scheduler.rs:161-175 | In place as in the model `ArrivesExactly`, `ApplicationsKept` and `QueuedFirst` are about: a reader joins a queued job, makes one for its application, or is answered at once from a set cell |
| JobsQueue.Queue.Prune | crates/elsewhere-server/src/element_scheduler.rs:176-181 | The retain loops in place equal the model's sweep: dead readers, jobs without readers and stale ids go, tasks without readers are aborted |
| JobsQueue.Queue.Next | crates/elsewhere-server/src/element_scheduler.rs:182-201 | The rotation stops at the first token with a startable job and takes that token's first such job in `order` |
| JobsQueue.Queue.Finish | crates/elsewhere-server/src/element_scheduler.rs:202-213 | Every reader of the job is replied to once; a refresh sets its cell and answers the queued readers of that cell too |
| JobsQueue.Queue.StartAll | crates/elsewhere-server/src/element_scheduler.rs:216-255 | The loop in place ends where repeated picks and starts of the model end: jobs moved from queued to active unchanged, nothing startable left |
| JobsRun.StartedByLaunches | crates/elsewhere-server/src/element_scheduler.rs:216-255 | That end is reached by launches of the run model, one task number each, after which a further launch changes nothing; so what holds of all runs holds of the loop |
| Admissions.PermitsExclusive | crates/elsewhere-server/src/element_scheduler.rs:47-85 | In every run no two live permits are for one application and at most four are live |
| Admissions.DispatchIsMaximal | crates/elsewhere-server/src/element_scheduler.rs:64-85 | A dispatch ends with four applications active or every pending request's application active |
| Admissions.AdmissionOvertaking | crates/elsewhere-server/src/element_scheduler.rs:68-84 | Bounded overtaking for permits |
| Admissions.WaitsLast | crates/elsewhere-server/src/element_scheduler.rs:60-63 | A request waits behind every other of its token, and a token without requests behind every other |
| Admissions.TakenUntilCleaned | crates/elsewhere-server/src/element_scheduler.rs:47-51 | Over any run of requests and dropped permits the applications in use stay the same |
| Admissions.CleansExactly | crates/elsewhere-server/src/element_scheduler.rs:64-67 | A dispatch first frees exactly the applications without a live permit and drops exactly the dead requests, the others in their order |
| Admissions.GrantsNext | crates/elsewhere-server/src/element_scheduler.rs:68-85 | With fewer than four in use, the permit goes to the first token in the rotation with a request whose application is free, and its first such request; a lease lives if its receiver still listens, and the token goes last while it has requests left |
| Admissions.NextExists | crates/elsewhere-server/src/element_scheduler.rs:68-84 | There is such a first one whenever any pending request's application is free |
| Admissions.Counter.Push | crates/elsewhere-server/src/element_scheduler.rs:60-63 | Equals the model step in which a request waits last in its token's queue and a new token last in the rotation |
| Admissions.Counter.Drop | crates/elsewhere-server/src/element_scheduler.rs:47-51 | Dropping a permit ends its lease and changes nothing else; the application stays taken until the next dispatch |
| Admissions.Counter.Dispatch | crates/elsewhere-server/src/element_scheduler.rs:64-85 | The loop in place ends where repeated single grants of the model end, so it is maximal, and keeps the invariant that permits are exclusive |
| Admissions.Counter.GrantOne | crates/elsewhere-server/src/element_scheduler.rs:68-84 | Rotating token by token in place is one grant of the rotation that `BoundedOvertaking` is about, and finds a request exactly when one can be served |
| Access.NoActionAfterCancel | crates/elsewhere-server/src/auth.rs:17-43 | Once cancelled, in every continuation no action runs and no dispatch is newly admitted |
| Access.CleanupOnce | crates/elsewhere-server/src/auth.rs:44-50 | A record is cleaned up at most once, and only cancelled, with no action running and no dispatch admitted |
| Access.RevokeWaits | crates/elsewhere-server/src/auth.rs:171-186 | When a revoke has returned, the record it found has had its one cleanup, and no record of the token that is still referred to is without it |
| Access.OneRecordPerToken | crates/elsewhere-server/src/auth.rs:122-139 | Two records of one token are never both live, or one live and the other with a dispatch admitted |
| Access.AlwaysValid | crates/elsewhere-server/src/auth.rs:171-208 | The invariant of the protocol over every interleaving of actions, dispatches, revokes, the expiry sweep and authentication; who is cancelled is what the next two say |
| Access.OnlyOverCancelled | crates/elsewhere-server/src/auth.rs:171-208 | In every interleaving only records of revoked or expired tokens are cancelled |
| Access.SweepCollects | crates/elsewhere-server/src/auth.rs:191-208 | The sweep collects a record if and only if it is expired, not cancelled, still referred to and not taken out by a revoke |
| AccessLaws.AdmittedExactly | crates/elsewhere-server/src/auth.rs:17-43 | An action or dispatch that holds its guard goes on if and only if the token is neither cancelled nor expired then, and gives the guard back otherwise |
| AccessLaws.AuthenticatedIsLive | crates/elsewhere-server/src/auth.rs:122-139 | A token that is not over can be authenticated and gets a live record: the open one of the token if there is one, else a new one; the other live entries stay |
| AccessLaws.RevokeReturns | crates/elsewhere-server/src/auth.rs:171-186 | From every reachable state each revoke that has committed can return, whatever holds guards or runs the cleanup, and then no record of the token that a key still refers to is left without its cleanup |
| AccessLaws.StaysInSweep | crates/elsewhere-server/src/auth.rs:191-208 | What the sweep has collected stays in it until it is cleaned up, or its cleanup panics |
| AccessLaws.SweepEnds | crates/elsewhere-server/src/auth.rs:191-208 | From every reachable state each record the sweep has collected can be cancelled, cleaned up and taken out of the cache |
| Ownership.ReleasedBetween | crates/elsewhere-server/src/auth.rs:75-90 | In every run, between the inputs of two different owners all input is released |
| Ownership.HeldExactly | crates/elsewhere-server/src/auth.rs:75-115 | A session's input adds to its own and replaces another's; its release, or its token's revoke, lets go of it, and nobody else's does |
| Ownership.InputsSent | crates/elsewhere-server/src/auth.rs:75-83 | In every run each input asked for while the compositor takes commands is sent, once and in order, and no other |
| Ownership.ReleasesNeeded | crates/elsewhere-server/src/auth.rs:75-115 | In every run nothing is released that nobody held |
| Ownership.App.SendInput | crates/elsewhere-server/src/auth.rs:75-83 | A new owner's input follows a release of all; a failed send leaves the owner |
| Ownership.App.ReleaseInput | crates/elsewhere-server/src/auth.rs:84-90 | Only the owner releases, and then no input is held |
| Ownership.App.CancelToken | crates/elsewhere-server/src/auth.rs:112-115 | A revoked token's input is released |
| Stack.StackPlaces | crates/elsewhere-compositor/src/lib.rs:534-543 | Sorting and inserting puts every minimized window exactly at its index, with the mapped ones in order elsewhere |
| Stack.StackUnique | crates/elsewhere-compositor/src/lib.rs:534-543 | No other stack does |
| Stack.FullStackArranged | crates/elsewhere-compositor/src/lib.rs:534-543 | The whole stack lists every window once, and restricted to the mapped ones is the space |
| Stack.MinimizeStack | crates/elsewhere-compositor/src/lib.rs:566-571 | Unmapping a window and remembering its index leaves the whole stack as it was |
| Stack.UnminimizeStack | crates/elsewhere-compositor/src/lib.rs:582-594 | Mapping it again, and the mapped windows above its place over it, leaves the whole stack as it was |
| Stack.ForgetStack | crates/elsewhere-compositor/src/lib.rs:545-558 | Forgetting and then unmapping a window removes exactly it from the whole stack and keeps the indices right |
| Stack.RemapKeeps | crates/elsewhere-compositor/src/lib.rs:726-788 | Mapping all windows again in back-to-front order keeps the order |
| Stack.BatchDrifts | crates/elsewhere-compositor/src/lib.rs:498-501 | Counterexample: two dead windows forgotten together put a minimized window above one it was below |
| Batches.BatchPlace | crates/elsewhere-compositor/src/lib.rs:498-501 | For every stack and every set of dead windows: a surviving minimized window is at its place among the living if and only if the dead mapped windows below it are spaced |
| Batches.BatchKeeps | crates/elsewhere-compositor/src/lib.rs:498-501 | The batch removes the dead and nothing else, and keeps the indices right, if and only if the dead mapped windows below every surviving minimized one are spaced |
| Batches.OneIsSpaced | crates/elsewhere-compositor/src/lib.rs:498-501 | A mapped window that dies alone is always spaced, so by `BatchKeeps` the batch is then right |
| Batches.LoweredExactly | crates/elsewhere-compositor/src/lib.rs:551-557 | Each dead window below lowers the room under a minimized one exactly once if and only if they are spaced |
| Frames.RestoreSettles | crates/elsewhere-compositor/src/handlers.rs:559-591 | `restore_rect` is the identity on geometry that fits, gives geometry within the client's limits, and is idempotent; what it gives when the geometry does not fit is what the next row says |
| Frames.RestoreNearest | crates/elsewhere-compositor/src/handlers.rs:559-591 | `restore_rect` gives, side by side, the allowed size nearest to the given one that the work area holds, the least allowed one if it holds none, and the place nearest to the given one that keeps it inside, else the near edge |
| Frames.SizeUnique | crates/elsewhere-compositor/src/handlers.rs:559-591 | No other size is |
| Frames.PlaceUnique | crates/elsewhere-compositor/src/handlers.rs:559-591 | No other place is |
| Frames.FillRoundTrip | crates/elsewhere-compositor/src/handlers.rs:592-631 | After any sequence of maximize, unmaximize, fullscreen and unfullscreen the window fills the output, or the work area under its bar, or is at `restore_rect` of where it was, which `RestoreNearest` describes |
| Frames.StatesFollow | crates/elsewhere-compositor/src/handlers.rs:592-631 | After any such sequence the window is maximized, and fullscreen, exactly if the last request of that kind said so |
| Frames.KioskRoundTrip | crates/elsewhere-compositor/src/kiosk.rs:26-69 | Kiosk on and off gives a floating window `restore_rect` of its geometry and every other its state and its restore geometry |
| Frames.KioskNewcomer | crates/elsewhere-compositor/src/kiosk.rs:49-58 | A window opened in kiosk leaves it maximized, with the work area to unmaximize to |
| Frames.RelaidSettles | crates/elsewhere-compositor/src/lib.rs:726-788 | Laying out twice is laying out once, and keeps fills and their restore geometry |
| Frames.RelaidExactly | crates/elsewhere-compositor/src/lib.rs:726-788 | Laying out leaves panels alone, makes a filled window cover the output or the work area under its bar, and moves any other no further than leaves 64 pixels of the work area right of and under its corner |
| Desktop.State.TransientsOf | crates/elsewhere-compositor/src/handlers.rs:164-176 | The loop ends, on cycles too, with exactly the mapped windows whose chain of parents reaches the window, bottom to top |
| Desktop.State.FocusWindow | crates/elsewhere-compositor/src/input.rs:541-572 | The window and then its transients are raised, the order otherwise kept; only a mapped window on the input workspace takes the focus |
| Desktop.FocusesExactly | crates/elsewhere-compositor/src/input.rs:541-572 | Focus puts a shown, mapped window over all but its transients and those on top, each group in the order it had; a request for any other window changes no order |
| Desktop.TopOf | crates/elsewhere-compositor/src/lib.rs:560-563 | The window the focus falls to is the highest shown one that is no menu or tooltip, and there is none only if no window qualifies |
| Desktop.State.Minimize | crates/elsewhere-compositor/src/lib.rs:566-580 | The whole stack changes only by the raise of the next focused window |
| Desktop.State.Unminimize | crates/elsewhere-compositor/src/lib.rs:582-594 | The whole stack is unchanged, the window mapped at its remembered location, everything laid out again |
| Desktop.State.Relayout | crates/elsewhere-compositor/src/lib.rs:726-788 | The order is unchanged and every window is laid out for its state |
| Desktop.LaidExactly | crates/elsewhere-compositor/src/lib.rs:726-788 | Each mapped window fills its space or can be reached, a minimized filled one is told its size and keeps its place, and no other frame changes |
| Desktop.State.ComputeStack | crates/elsewhere-compositor/src/lib.rs:534-543 | The loop computes the whole stack |
| Desktop.State.ForgetWindow | crates/elsewhere-compositor/src/lib.rs:545-558 | The loop lowers the indices above the window and drops it from the minimized ones |
| Desktop.State.Drop | crates/elsewhere-compositor/src/xwayland.rs:127-134 | Forget and unmap: the whole stack loses exactly that window |
| Desktop.State.Disconnect | crates/elsewhere-compositor/src/xwayland.rs:186-197 | When Xwayland goes, its windows leave the whole stack and no other moves |
| Desktop.State.Fill | crates/elsewhere-compositor/src/foreign_toplevel.rs:140-149 | A mapped window is filled or unfilled and raised only if it is mapped again; a minimized one is first back at its remembered location and laid out; any other is left alone |
| Desktop.State.SetKiosk | crates/elsewhere-compositor/src/kiosk.rs:20-79 | Switching kiosk keeps the order of the mapped windows up to the raise of the active one, and the minimized windows with their indices; every managed window covers the output with its state, place and restore geometry remembered, or has them back, a floating one at `restore_rect` of its place |
| Desktop.State.KioskAndBack | crates/elsewhere-compositor/src/kiosk.rs:20-79 | Kiosk on and then off, whatever is minimized: mapped order up to one raise, minimized windows with their indices, and every managed window with its state, fill and restore geometry; a floating one at `restore_rect` of its place up to the clamp of the re-layouts in between, exactly there when nothing is minimized |
| Desktop.ModedTwice | crates/elsewhere-compositor/src/kiosk.rs:26-69 | One window through both switches, from what each switch states of it |
| Desktop.ReturnedExactly | crates/elsewhere-compositor/src/kiosk.rs:57-59 | With windows minimized the way back is exact if and only if the window is filled or a re-layout leaves its restored place alone |
| Desktop.BelowMinimized | crates/elsewhere-compositor/src/kiosk.rs:26-69 | A window below a minimized one comes back exactly if and only if it is filled or the re-layout that shows the other leaves its restored place alone |
| Desktop.SmallMoves | crates/elsewhere-compositor/src/kiosk.rs:28 | Counterexample: a window of 20 pixels at the right edge ends 44 pixels to the left |
| Desktop.FitsBack | crates/elsewhere-compositor/src/kiosk.rs:57-59 | A window that fits the work area and is at least 64 pixels each way is back unchanged |
| Desktop.FocusedTwice | crates/elsewhere-compositor/src/input.rs:541-572 | Focusing the active window again changes neither the order nor the focus |
| Desktop.State.KioskWindow | crates/elsewhere-compositor/src/kiosk.rs:26-69 | One window is shown and switched: its state, place and restore geometry are kept for the way back or put back, minimized or not, and every other window keeps its frame up to a clamp |
| Desktop.State.SwitchAll | crates/elsewhere-compositor/src/kiosk.rs:26-69 | All managed windows are shown and switched, each frame as `KioskWindow` says although later turns lay it out again, whatever that does to the order |
| Desktop.State.Restack | crates/elsewhere-compositor/src/kiosk.rs:70-75 | The mapped windows end in the order the stack had |
| Desktop.State.Reminimize | crates/elsewhere-compositor/src/kiosk.rs:76 | Minimizing again leaves the whole stack and the focus |
| Families.SyncReachesRoots | crates/elsewhere-compositor/src/workspace.rs:236-251 | For acyclic parents the n-round loop leaves every window on its root's workspace |
| Families.MovesOneFamily | crates/elsewhere-compositor/src/workspace.rs:328-343 | A move takes the whole family of the window and no window of another |
| Families.MovesAnyway | crates/elsewhere-compositor/src/workspace.rs:328-343 | Whatever was out of step: a move of a family whose root is elsewhere ends with the family on the target and every other window with its own root |
| Families.RoundsCopy | crates/elsewhere-compositor/src/workspace.rs:236-251 | For any parents the loop gives a window only a workspace that some window had, and touches none outside the stack |
| Families.StableRounds | crates/elsewhere-compositor/src/workspace.rs:249 | Stopping after a round without a change loses nothing |
| Families.RootIsTop | crates/elsewhere-compositor/src/workspace.rs:330-336 | The climb of a move ends at the window without a parent |
| WorkspacesRun.WorkspacesHold | crates/elsewhere-compositor/src/workspace.rs:132-343 | In every run there is a workspace, ids are distinct, the active and the input one exist, every window is on one that exists, and every name is proper |
| WorkspacesRun.IdsNotReused | crates/elsewhere-compositor/src/workspace.rs:137-146 | An id that is gone never comes back |
| WorkspacesRun.PanelsAgree | crates/elsewhere-compositor/src/workspace.rs:24-68 | For every run and every bound panel: replaying what it was sent gives the current workspaces, names and active flag, and did at every done, but for handles it destroyed; the viewers' last list is current |
| WorkspacesRun.ItemsAre | crates/elsewhere-compositor/src/workspace.rs:133-135 | What a panel should show is exactly the entries, each with its name and whether it is the active one |
| WorkspacesRun.DeleteRehomes | crates/elsewhere-compositor/src/workspace.rs:163-183 | A deleted workspace's windows all go to the first other one, nothing else moves, and the last one cannot be deleted |
| WorkspacesRun.MoveIsOneFamily | crates/elsewhere-compositor/src/workspace.rs:328-343 | A move to a workspace that exists takes one family |
| WorkspacesRun.MoveGathers | crates/elsewhere-compositor/src/workspace.rs:328-343 | The same for a desk that is not in step: every window ends with its root, the family on the target |
| WorkspacesRun.DeleteGathers | crates/elsewhere-compositor/src/workspace.rs:163-183 | A deletion ends with every window where its root was, or with it on the first other workspace |
| WorkspacesRun.FamiliesTogether | crates/elsewhere-compositor/src/workspace.rs:235-251 | In every run, from a sync on and until a window opens or a parent changes, through switches, moves, deletions, closings, restacking and commits: every window is on its root's workspace |
| WorkspacesRun.FocusReturns | crates/elsewhere-compositor/src/workspace.rs:209-224 | In every run: a workspace that gets the input back, by a switch or the input alone, gives the focus to the window that had it, if still mapped there, else to the highest one there that is no menu or tooltip, and to none only if there is none |
| Workspaces.TopMost | crates/elsewhere-compositor/src/lib.rs:560-563 | The highest window of the stack that is mapped on the workspace with the input and no menu or tooltip; none only if no window qualifies |
| WorkspacesLaws.RefocusesExactly | crates/elsewhere-compositor/src/workspace.rs:252-275 | After a sync the focus is unchanged while its window is on the workspace with the input and nothing hidden holds a grab; else it stays if it can, and falls to the top one if its window is hidden |
| WorkspacesLaws.CreatesExactly | crates/elsewhere-compositor/src/workspace.rs:137-147 | A new workspace has the next number, comes last, and has the given name unless that is blank, then its number; over 256 bytes or with a control character nothing happens; numbers end at 2^32 - 1 |
| WorkspacesLaws.DecimalIs | crates/elsewhere-compositor/src/workspace.rs:139 | The number as a name reads back as the number and has no leading zero |
| WorkspacesLaws.RenamesExactly | crates/elsewhere-compositor/src/workspace.rs:149-161 | Exactly the workspace with the id gets the name, exactly when the name is not blank, not too long and without control characters |
| WorkspacesLaws.DeletesExactly | crates/elsewhere-compositor/src/workspace.rs:163-183 | Exactly that workspace goes, unless it is the last; the active one and the one with the input move to the first other one exactly if they were it |
| WorkspacesLaws.ObeysExactly | crates/elsewhere-compositor/src/workspace.rs:111-128 | What a panel's requests to activate, remove and create come to |
| WorkspacesLaws.CommitsExactly | crates/elsewhere-compositor/src/workspace.rs:89-97 | A commit obeys the panel's requests in order, the last one after all others, and without any changes nothing |
| WorkspacesState.State.Create | crates/elsewhere-compositor/src/workspace.rs:137-147 | The loops in place equal the model's step: one id from the counter, the same new handle for every panel, then the states and the done |
| WorkspacesState.State.Rename | crates/elsewhere-compositor/src/workspace.rs:149-161 | Blank, long, control-character, unknown and unchanged names change nothing; else every panel's live handle hears the name before the done |
| WorkspacesState.State.Delete | crates/elsewhere-compositor/src/workspace.rs:163-183 | In place as in the model `WorkspacesHold` and `PanelsAgree` are about: active and input move away first, then windows, entry and handles, then families are synced and all is published |
| WorkspacesState.State.Switch | crates/elsewhere-compositor/src/workspace.rs:303-319 | Switching in place moves active and input together, notes the focus left behind, and focuses the noted window of the new workspace or the one `TopMost` describes, as `FocusReturns` needs |
| WorkspacesState.State.SetInput | crates/elsewhere-compositor/src/workspace.rs:209-224 | Moving the input notes a focus that is on the workspace it leaves, and focuses the noted or the top window of the one that has it now |
| WorkspacesState.State.SyncParents | crates/elsewhere-compositor/src/workspace.rs:236-275 | The in-place loop with its early stop equals n whole rounds; then a hidden focus goes to the top window, and a focus is set again when a hidden window held a grab |
| WorkspacesState.State.MoveTo | crates/elsewhere-compositor/src/workspace.rs:328-343 | The climb in place, which ends on cycles too, finds the model's root; one assignment and the sync then move the family |
| WorkspacesState.State.Publish | crates/elsewhere-compositor/src/workspace.rs:61-68 | Every live handle of every panel gets its state and every panel one done, whatever the loops' order of panels |
| WorkspacesState.State.Bind | crates/elsewhere-compositor/src/workspace.rs:76-87 | A new panel is told every workspace in order, then done, as `PanelsAgree` needs |
| WorkspacesState.State.Commit | crates/elsewhere-compositor/src/workspace.rs:89-97 | The queue is emptied first and then obeyed, each request once and in its order |
| Toplevels.Serve | crates/elsewhere-compositor/src/foreign_toplevel.rs:95-171 | Over every run of binds, stops, destroyed handles and refreshes from the start: each bound taskbar that destroyed no handle shows exactly the windows of the last refresh, once each, with title, application and states as they were |
| Toplevels.TaskbarShows | crates/elsewhere-compositor/src/foreign_toplevel.rs:95-137 | The agreement every step keeps amounts to that |
| Toplevels.DifferencesTell | crates/elsewhere-compositor/src/foreign_toplevel.rs:120-133 | Sending only what differs, then done, brings a taskbar to the whole of what is |
| Toplevels.Taskbars.Refresh | crates/elsewhere-compositor/src/foreign_toplevel.rs:95-137 | Keeps the agreement of every taskbar, ends with exactly the live windows as they are, and sends nothing when nothing changed |
| Toplevels.Taskbars.Bind | crates/elsewhere-compositor/src/foreign_toplevel.rs:153-159 | A new taskbar gets one handle for each known window with what the others know; the others hear nothing |
| Toplevels.Taskbars.Stop | crates/elsewhere-compositor/src/foreign_toplevel.rs:163-171 | A stopped manager leaves the list, so nothing new is made for it, and all others keep agreeing |
| Toplevels.Taskbars.NewHandle | crates/elsewhere-compositor/src/foreign_toplevel.rs:45-57 | A new handle is fully described at its first done |
| Decode.DecodeChain | web/src/viewer.js:624-653 | In every run a decoder's first frame is a key, and every delta directly follows, modulo 2^16, the frame that decoder got before; a replaced decoder gets nothing more |
| Decode.NoFrameMissed | web/src/viewer.js:624-653 | With frames less than 2^15 numbers apart, no delta is given to a decoder that missed a frame |
| Decode.AcceptsAhead | web/src/viewer.js:631 | For all frame numbers the masked test accepts exactly those one to 2^15 ahead round the wrap |
| Decode.NearIsExact | web/src/viewer.js:631-638 | Less than 2^15 apart (compare section 3.2 of RFC 1982) it accepts exactly the newer frames, and the gap is the number skipped |
| Decode.LostIsSkipped | web/src/viewer.js:638-640 | The lost counter grows by exactly the frames skipped, and for no frame not taken |
| Decode.DecodesExactly | web/src/viewer.js:624-653 | A frame is decoded if and only if it comes by the path in use to a working decoder, is newer, and is a key, or follows the last frame while no key is awaited and at most 4 frames are queued |
| Decode.AsksExactly | web/src/viewer.js:624-653 | A key is asked for, once, exactly when a delta that cannot be decoded ends a run of frames that could, which counts as one dropped frame, or when a decoder has to be replaced; the sequence advances with every newer frame |
| Decode.StreamDecoded | web/src/viewer.js:624-653 | A working decoder gets every unbroken stream that begins with a key whole, whatever was lost before it and however long it is |
| Decode.FailureRecovered | web/src/viewer.js:413-437 | A decoder that fails is replaced, a key is asked for once, and the stream from it on is decoded whole by the new one |
| Decode.CanStart | web/src/viewer.js:453-468 | A viewer without a connection can get one, and shows the first key frame after its CONFIG |
| Decode.DueExactly | web/src/viewer.js:453-468 | A key is due exactly from when it is asked for or announced until one is decoded or a new decoder waits for its own |
| Decode.Viewer.Receive | web/src/viewer.js:624-653 | The VIDEO handler in place takes exactly the model's step, so `DecodeChain`, `NoFrameMissed`, `DecodesExactly` and `StreamDecoded` hold of it |
| Decode.Viewer.Configure | web/src/viewer.js:453-468 | The CONFIG handler in place restarts the sequence and the decoder as the model does, asking for a key frame unless one accompanies it |
| Decode.Viewer.NewDecoder | web/src/viewer.js:413-437 | A new decoder waits for a key; a failed configure leaves the old one closed |
| Recovery.RecoveryHolds | web/src/viewer.js:835-909 | In every run never both an attempt and a retry timer; video over the channel means an attempt on the current socket; while wanted and possible one of attempt and timer is there; an attempt is open or limited in time |
| Recovery.RetriesPaced | web/src/viewer.js:889-897 | A pending retry is for the current socket, can be hurried, and waits 0.8 to 1 times the backoff |
| Recovery.DelayBounds | web/src/viewer.js:894 | The delay lies within 0.8 and 1 times min(30000, 1000 * 2^min(f, 5)) |
| Recovery.StaleIgnored | web/src/viewer.js:842-868 | Nothing an earlier attempt reports changes anything, and none of its timers is armed |
| Recovery.ClosesOnce | web/src/viewer.js:876-888 | The server is told of the end of an attempt at most once, and never of the current one |
| Recovery.FailuresMove | web/src/viewer.js:869-897 | One event adds at most one failure, with a retry armed; only healthy video over the channel resets them |
| Recovery.TickKeeps | web/src/viewer.js:680-690 | Three lossy seconds of ten never end an attempt that is still connecting |
| RecoveryLaws.EndsExactly | web/src/viewer.js:835-909 | An attempt ends with exactly these events: its limit, its peer or the server closing it, video coming back over the socket, a third lossy second of ten, the socket, the viewer's choice, dispose; after a failure on an open socket the server is told and one retry armed |
| RecoveryLaws.BeginsExactly | web/src/viewer.js:835-868 | Without an attempt one begins exactly when the server's configuration, the viewer's choice or a due or hurried retry finds the channel wanted and possible; if no peer can be made the next retry is armed at once |
| RecoveryLaws.OpensOrEnds | web/src/viewer.js:842-875 | An attempt takes the video over when its peer opens, and ten healthy seconds after that forget the failures; one that has not opened ends with its limit and arms the next retry |
| RecoveryLaws.CanRecover | web/src/viewer.js:835-909 | From every reachable state a viewer that wants the channel can get its video over it on a new socket |
| Recovery.Peer.MaybeRtc | web/src/viewer.js:835-868 | An attempt starts in place exactly when the model's does: none of the guards holds, and a pending retry gives way |
| Recovery.Peer.CloseRtc | web/src/viewer.js:876-888 | Closing in place disarms all three timers and tells the server only of an attempt of the open current socket |
| Recovery.Peer.FailRtc | web/src/viewer.js:889-897 | Failing in place arms a retry exactly when the channel is still wanted and the socket open, with the backoff of the failures so far |
| Recovery.Peer.OnOpen | web/src/viewer.js:853-862 | Only the current attempt takes the video over; its limit is disarmed and the health timer armed |
| Recovery.Peer.OnTick | web/src/viewer.js:680-690 | The ten-second record in place, so `TickKeeps` holds of it |
| Recovery.Peer.SetTransport | web/src/viewer.js:903-909 | Choosing WebRTC tries at once, choosing the socket closes and forgets retries, as in the model `RecoveryHolds` is about |
| Recovery.Peer.RetryRtc | web/src/viewer.js:898-902 | The retry button does nothing unless a retry waits and the socket is open |
| Reassembly.RoundTrip | web/src/rtc.js:14-33 | Frames with distinct ids, sent in order in contiguous fragments over the wire format, some abandoned part-way: exactly the complete ones come out, byte for byte and in order |
| Reassembly.AllArrive | web/src/rtc.js:14-33 | Any number of frames sent whole all arrive, in order and byte for byte |
| Reassembly.NothingLost | web/src/rtc.js:14-33 | Whatever arrives, at most 8 frames are held, and every frame begun is delivered, given up, broken or held |
| Reassembly.GivesUpExactly | web/src/rtc.js:17-33 | A frame is given up exactly when a ninth is begun, and it is the one begun first; every other keeps what it has |
| Reassembly.ParsedBack | web/src/rtc.js:19-20 | The 9-byte header is read back as it was written |
| Reassembly.Channel.OnMessage | web/src/rtc.js:17-33 | One message in place equals the model's step that `RoundTrip` and `NothingLost` are about, and hands on exactly the frame it completes |
| Thumbnails.NoLostUpdate | web/src/thumbnails.js:2-50 | In every run at most one job; while a picture is needed a job or the timer is there; a loop at rest last published its current row |
| Thumbnails.CapturesSpaced | web/src/thumbnails.js:9-25 | Captures start at least three seconds apart |
| Thumbnails.NothingStale | web/src/thumbnails.js:20-33 | No picture is published of a row resized, made ineligible or disposed since its capture began, and such a capture is aborted |
| Thumbnails.DisposedIsFinal | web/src/thumbnails.js:44-49 | After dispose nothing is published, started or armed |
| Thumbnails.TurnsExactly | web/src/thumbnails.js:17-23 | A job's turn captures the row as it is now, exactly when its picture is still needed and nothing started in the last three seconds |
| Thumbnails.CapturesExactly | web/src/thumbnails.js:24-32 | A picture is published exactly when nothing gave its capture up, and a failure counts exactly when the row still wants that picture |
| Thumbnails.UpdatesExactly | web/src/thumbnails.js:34-43 | An update aborts a capture exactly when the row is hidden or resized, and forgets the failures exactly when another picture is wanted |
| Thumbnails.CanPublish | web/src/thumbnails.js:2-50 | From every reachable state a picture that is needed can be had |
| Thumbnails.Scheduler.Update | web/src/thumbnails.js:34-43 | The update in place equals the model's step, so no update is lost and stale captures are aborted |
| Thumbnails.Scheduler.Pump | web/src/thumbnails.js:8-17 | The pump in place never queues a second job and never arms a second timer |
| Thumbnails.Scheduler.Begin | web/src/thumbnails.js:17-23 | The job's turn in place captures only if a picture is still needed and the interval is over |
| Clipboard.NothingOlder | crates/elsewhere-compositor/src/clipboard.rs:136-158 | Once a newer offer or write was sent nothing of an older one follows, and no data over the limit is handed on |
| Clipboard.SettledOnce | crates/elsewhere-compositor/src/clipboard.rs:168-234 | The newest offer announced as loading is settled exactly once, or its start is queued, or it has its pipe and deadline; none is settled twice |
| Clipboard.DrainedIs | crates/elsewhere-compositor/src/clipboard.rs:197-220 | However the pipe cuts it, data is delivered byte for byte if it fits and dropped if not |
| Clipboard.FirstOffered | crates/elsewhere-compositor/src/clipboard.rs:120-122 | The type picked is offered and nothing preferred to it is; none is picked only if none is offered |
| Clipboard.AnnouncesExactly | crates/elsewhere-compositor/src/clipboard.rs:120-158 | An offer ends the read before it and is announced as the most preferred readable type, in the order of the seven types, loading, or as its first type, or as nothing; exactly one read is then on its way, or none |
| Clipboard.OfferedIsRead | crates/elsewhere-compositor/src/clipboard.rs:168-234 | A read that gets its pipe delivers what comes out of it, byte for byte, if it ends well within 16 MiB of PNG or 1 MiB of anything else, and is settled as unavailable otherwise |
| Clipboard.State.Offer | crates/elsewhere-compositor/src/clipboard.rs:136-144 | An offer in place cancels the read in flight before it is announced, and queues at most one start |
| Clipboard.State.StartRead | crates/elsewhere-compositor/src/clipboard.rs:168-234 | A superseded start does nothing; a failed one settles at once; else source, token and deadline are there together |
| Clipboard.State.OnReadable | crates/elsewhere-compositor/src/clipboard.rs:193-220 | The read loop in place equals `Drained` over the chunks, so `DrainedIs` holds of it, and it settles at most once |
| Clipboard.State.OnDeadline | crates/elsewhere-compositor/src/clipboard.rs:223-231 | The deadline in place ends and settles only the read of its own generation |
| Clipboard.State.SetClipboard | crates/elsewhere-compositor/src/clipboard.rs:238-254 | A write in place cancels the read in flight before it is sent |
| Drags.DropsReported | crates/elsewhere-compositor/src/clipboard.rs:268-352 | In every run the batches reported and the one settling are those asked for, each once and in order, if and only if none was asked for while another settled |
| Drags.OverlapLoses | crates/elsewhere-compositor/src/clipboard.rs:295-305 | Counterexample: a batch that is never reported |
| Drags.OneDropOneEnd | crates/elsewhere-compositor/src/clipboard.rs:268-352 | With at most one drop per start every batch is reported exactly once |
| Drags.SettlesExactly | crates/elsewhere-compositor/src/clipboard.rs:268-352 | A settling drop ends with exactly the target's acceptance, the first timer at its deadline, a cancel, a release of all input or a new drag, and is reported at once as the grab ended; its deadline is 1500 ms after the drop, and its timer runs until then |
| Drags.State.Release | crates/elsewhere-compositor/src/clipboard.rs:342-352 | The release in place reports a settling drop once, with what the grab said while the drag still counted |
| Drags.State.LetGo | crates/elsewhere-compositor/src/clipboard.rs:290-318 | A drop in place is reported at once when no drag is active, and else settles with fresh flags and a timer |
| Drags.State.OnTimer | crates/elsewhere-compositor/src/clipboard.rs:306-318 | The timer in place stays armed until the drop is over, and ends it once its deadline has passed |

## Left out

- Smithay, EGL and GBM, the encoders, WebCodecs, D-Bus, the token database and PipeWire: only the sequence, lock, timer and channel behaviour the code relies on is modelled; `Space` is a sequence in which mapping a window again puts it on top.
- Access: the locks are modelled on values as atomic steps of a transition system, not as objects; blocking waits are steps that are not enabled, so nothing is said about how long a wait lasts.
- Access: permissions of an action and the work of the cleanup itself, except the release of input in `Ownership`.
- JobsRun: what a scan or refresh computes is a parameter; task identities stand for the runtime's own.
- JobsRun.LaunchIsMaximal: for a state just pruned, which is when the loop starts jobs.
- Desktop.State.SetKiosk: menus and tooltips that are minimized keep the list only up to its order.
- Desktop.State.Minimize: pending configures, pointer replay and redraw flags.
- Frames: clients adopt a configured size at once, X11 frame extents are zero, and coordinates do not overflow 32 bits.
- WorkspacesState.State.Switch: the raise of the window that gets the focus is a step of its own, which may restack at any time; a panel that holds the keyboard exclusively is not modelled.
- WorkspacesState.State.SyncParents: whether a hidden window held a grab is a parameter; the release of the grabs, buttons and pop-ups themselves is not modelled.
- WorkspacesState.State.SetInput: the focus a window that is just opening waits for.
- Workspaces: coordinates, capabilities and output events of the panel protocol, and clients that vanish while a handle is made.
- Families.SyncReachesRoots: cyclic parents, for which the loop ends but families have no root.
- Toplevels.TaskbarShows: for a taskbar that destroyed handles the others still agree, which `Toplevels.Agrees` states.
- Toplevels.Taskbars.Refresh: the order in which a hash map lists windows is left open.
- Decode: lateness, freezes and statistics; pictures and painting.
- Recovery: signalling and ICE, and the statistics of a peer.
- Reassembly: the server's own fragmenter is not part of this model; a splitter with the header the viewer parses stands for it. The arrival time handed on with a frame.
- Thumbnails: `allowed` is constant, and the shared queue runs each job once.
- Clipboard: serving a selection to clients, and writing it to X11.
- Drags: which list a late reader of an earlier drag is served.
- Controller handoff between participants, notification expiry, and the broadcast registry.
- Pixel conversion, snapshot sizes, title-bar hit tests, desktop files, cursors, touch zoom, microphone batches, the React components and the check scripts: user interface, input and output, or easy members.
