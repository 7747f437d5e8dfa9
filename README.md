# Multi-track editor UI rules, modelled in Dafny

This project models the state logic of a browser-based multi-track audio editor and its project list. React, the DOM and the third-party waveform player are abstracted away.

- **Mixer** (`nextjs-frontend/src/app/editor/page.tsx`). The editor page keeps a record from track id to `{player, stored volume}`, plus the flags `isPlaying` and `isSeeking` and the `focused` (soloed) track. Its handlers fan one user action out to every registered player: register a player, change a track's volume, focus or unfocus a track, play/pause, skip ±5 s, and propagate a seek. Key presses are dispatched to these handlers.
- **Track row** (`nextjs-frontend/src/components/track.tsx`). A stateless row that derives its dimming, slider value and button looks from `(id, volume, focused)`. Its buttons send requests back to the page.
- **Project list** (`nextjs-frontend/src/components/projects.tsx`). A case-insensitive search filter, a sort chosen by two tri-state header flags, a rename workflow, and each row's link target.

Modules:

| module | file | what it holds |
|---|---|---|
| `Wrappers` | `wrappers.dfy` | `Option`, for JavaScript's `null`/`undefined` |
| `Mixer` | `mixer.dfy` | players and track entries as values; the functions that specify each handler's effect on the record; JavaScript's ascending enumeration of integer keys; the invariants `InSync` (every player plays at the volume its stored volume and the focus call for) and `Aligned` (every player is at the same position); and the lemmas about them |
| `Editor` | `editor.dfy` | key dispatch; the `forEach` loops as methods over the record; class `EditorPage`, whose handlers are proved to produce what `Mixer` specifies |
| `Track` | `track.dfy` | the row's rules, and lemmas that compose them with the page's handlers |
| `Text` | `text.dfy` | ASCII `toLowerCase`, `includes`, JavaScript `trim`, and a lexicographic order |
| `Projects` | `projects.dfy` | the filter, the sort orders, the header toggle, rename submission and link targets |
| `ProjectList` | `project_list.dfy` | the in-place sort of the displayed copy, and class `ProjectsView`, which holds the list view's state |

Behaviour of the source that the model makes explicit:

- **Focusing can throw.** `setFocusedLayer(f)` calls `trackState.ws.setVolume(...)` in its `else` branch without checking that `ws` exists (`page.tsx:84-86`).
  - An entry without a player arises when `updateTrackVolume` runs for an id whose player has not registered yet. For example, a slider is moved before its waveform is ready (`page.tsx:61-69`).
  - The model does not exclude this case. `Editor.FocusPass` and `Editor.EditorPage.SetFocusedLayer` return `ok == false` exactly when some entry has no player.
  - Entries with lower ids than the first such entry have already been changed by then, and `focused` is not updated.
  - `Editor.SoloAfterEarlySliderMove` walks through this sequence on a fresh page.
- **Registering a player can desynchronise the mix.** A row's `onReady` sets the new player to the current volume prop, and `registerWaveSurfer` then resets the stored volume to 1 (`track.tsx:52-55`, `page.tsx:47-54`).
  - `Mixer.RegisterSync` shows that registration keeps the players in sync exactly when the player already plays at the volume the reset entry calls for. `Track.ReadyKeepsSyncIff` applies this to the player `onReady` hands over, which plays at the volume prop.
  - A track that finishes loading while another track is soloed therefore plays aloud.
  - A track that re-registers after a volume change plays at its old volume while its stored volume reads 1.
- **The page and the row read `focused` differently.** The page tests `focused != null` (`page.tsx:57`), but the row uses JavaScript truthiness, under which a focus of 0 counts as none (`track.tsx:63, 77, 86`). The composition lemmas in `Track` therefore assume `focused != Some(0)`. The page only creates tracks with ids 1 to 6.

## Model

| member | source | states |
|---|---|---|
| `Mixer.VolumeProp` | nextjs-frontend/src/app/editor/page.tsx:253 | the prop passed to a row; the body is the definition (the stored volume of the track's entry), and the contract pins the default of 1 for a track with no entry |
| `Mixer.EnumerationOrder` | nextjs-frontend/src/app/editor/page.tsx:75-87 | the visiting order of `Object.values`/`Object.entries` on the record: every id exactly once, in increasing order |
| `Mixer.FirstPlayer` | nextjs-frontend/src/app/editor/page.tsx:113 | `find(({ws}) => ws)` picks the lowest id that has a player; none exactly when no entry has a player |
| `Mixer.FirstUnregistered` | nextjs-frontend/src/app/editor/page.tsx:80-86 | the lowest id whose entry has no player, i.e. where the focus loop throws; none exactly when every entry has a player |
| `Mixer.SkipTarget` | nextjs-frontend/src/app/editor/page.tsx:112-130 | a skip has a target time exactly when some player is registered |
| `Mixer.Restore` | nextjs-frontend/src/app/editor/page.tsx:74-77 | definition of the unfocus loop's result: same ids, registrations and stored volumes, and every player set to its entry's stored volume with its time and play state kept |
| `Mixer.Solo` | nextjs-frontend/src/app/editor/page.tsx:79-88 | definition of a completed focus loop's result: same ids, registrations and stored volumes; the focused track's player at its stored volume and every other player at 0 |
| `Mixer.SoloBelow` | nextjs-frontend/src/app/editor/page.tsx:80-86 | definition (no contract of its own) of the record a focus loop leaves when it throws at id `stop`: entries below `stop` as in the solo, the rest untouched |
| `Mixer.AfterUpdate` | nextjs-frontend/src/app/editor/page.tsx:56-71 | definition of the record after `updateTrackVolume`: the ids gain `id`, and every other entry is as before, or as after unfocusing when another track held the focus |
| `Mixer.AfterSkip` | nextjs-frontend/src/app/editor/page.tsx:112-130 | definition of the record after a skip: same layout; unchanged when no player exists, and otherwise every player at the skip target |
| `Mixer.WithVolume` | nextjs-frontend/src/app/editor/page.tsx:61-70 | definition of the `setTrackStates` updater of `updateTrackVolume`: entry `id` gets stored volume `v`; its player, if any, is set to `v` and nothing else about it changes; a new id gets an entry with no player; every other entry is unchanged |
| `Mixer.FocusAfterUpdate` | nextjs-frontend/src/app/editor/page.tsx:57-59 | definition of the focus after `updateTrackVolume`: kept or cleared, kept when it is the changed track's, cleared only when another track held it |
| `Mixer.SetTimes` | nextjs-frontend/src/app/editor/page.tsx:98-100 | definition of the set-time loop's result (also lines 116-118 and 126-128): same layout, and every player at time `t` with its volume and play state kept |
| `Mixer.TogglePlayers` | nextjs-frontend/src/app/editor/page.tsx:106-108 | definition of the play/pause loop's result: same layout, and every player's play state flipped with its volume and time kept |
| `Mixer.SoloSyncs` | nextjs-frontend/src/app/editor/page.tsx:79-90 | after focusing `f`, `f`'s player is at its stored volume and every other player is at 0; no stored volume and no registration changes |
| `Mixer.RestoreSyncs` | nextjs-frontend/src/app/editor/page.tsx:74-77 | after unfocusing, every player is at its stored volume; stored volumes are untouched |
| `Mixer.UnsoloUndoesSolo` | nextjs-frontend/src/app/editor/page.tsx:73-91 | unfocusing after a solo gives the same record as unfocusing before it: the solo leaves no trace |
| `Mixer.UpdateKeepsSync` | nextjs-frontend/src/app/editor/page.tsx:56-71 | a volume change keeps every player at the volume the (possibly cleared) focus calls for |
| `Mixer.UpdateStoresVolume` | nextjs-frontend/src/app/editor/page.tsx:61-70 | a volume change stores `v` for `id` and sets `id`'s player (if any) to `v`; no other stored volume or registration changes |
| `Mixer.UpdateUnknownIdLeavesNoPlayer` | nextjs-frontend/src/app/editor/page.tsx:61-69 | a volume change for an id with no entry creates an entry without a player, so a later focus throws |
| `Mixer.RegisterSync` | nextjs-frontend/src/app/editor/page.tsx:47-54 | registering any player resets the stored volume to 1 without touching the player, so the mix stays in sync iff the player's volume equals what the reset entry calls for |
| `Mixer.PlayPauseTwiceRestores` | nextjs-frontend/src/app/editor/page.tsx:105-110 | play/pause twice is the identity, keeps the layout, and keeps the players in sync or out of sync; with `Mixer.TogglePlayers`' contract, each player's play state flips once and nothing else about it changes |
| `Mixer.SetTimesAligns` | nextjs-frontend/src/app/editor/page.tsx:94-100 | setting one time on all players leaves them aligned at that time, with the layout and sync unchanged; `Mixer.SetTimes`' contract adds that each player's volume and play state are kept |
| `Mixer.SkipBackUndoesSkipForward` | nextjs-frontend/src/app/editor/page.tsx:112-130 | on aligned players, a skip forward followed by a skip back restores the record exactly |
| `Editor.KeyActionOf` | nextjs-frontend/src/app/editor/page.tsx:134-147 | key 32 plays/pauses, 37 skips back, 39 skips forward, every other key is ignored |
| `Editor.RestorePass` | nextjs-frontend/src/app/editor/page.tsx:74-77 | the unfocus loop yields every player at its stored volume (`Mixer.Restore`) |
| `Editor.FocusPass` | nextjs-frontend/src/app/editor/page.tsx:79-88 | the focus loop succeeds iff every entry has a player, giving the solo record; otherwise only the entries below the first player-less id are changed |
| `Editor.TogglePass` | nextjs-frontend/src/app/editor/page.tsx:106-108 | the play/pause loop toggles every registered player once (`Mixer.TogglePlayers`) |
| `Editor.SeekPass` | nextjs-frontend/src/app/editor/page.tsx:98-100 | the set-time loop moves every registered player to the given time (`Mixer.SetTimes`) |
| `Editor.FindPlayer` | nextjs-frontend/src/app/editor/page.tsx:113 | returns the player of the lowest registered id, or none when no player is registered |
| `Editor.EditorPage.constructor` | nextjs-frontend/src/app/editor/page.tsx:37-41 | the page starts paused, not seeking, unfocused, with an empty record, in sync and aligned |
| `Editor.EditorPage.RegisterWaveSurfer` | nextjs-frontend/src/app/editor/page.tsx:47-54 | entry `id` becomes `{ws, volume 1}`, replacing any earlier volume; every other entry and flag is unchanged |
| `Editor.EditorPage.UpdateTrackVolume` | nextjs-frontend/src/app/editor/page.tsx:56-71 | clears a focus held by another track (restoring all players first), then stores and applies the volume for `id` |
| `Editor.EditorPage.SetFocusedLayer` | nextjs-frontend/src/app/editor/page.tsx:73-91 | `None` restores all players and clears the focus; `Some(f)` solos `f` and sets the focus, or throws (`ok` false) leaving the focus unchanged |
| `Editor.EditorPage.OnUniversalSeek` | nextjs-frontend/src/app/editor/page.tsx:94-100 | a no-op while a seek is in flight; otherwise moves every player to the new time and marks a seek in flight |
| `Editor.EditorPage.SeekSettled` | nextjs-frontend/src/app/editor/page.tsx:101 | the seek timer's callback clears the in-flight flag and changes nothing else |
| `Editor.EditorPage.OnUniversalPlayPause` | nextjs-frontend/src/app/editor/page.tsx:105-110 | toggles every registered player once and flips `isPlaying` |
| `Editor.EditorPage.OnUniversalSkipForward` | nextjs-frontend/src/app/editor/page.tsx:112-120 | moves every player to the lowest-id player's time + 5; changes nothing when no player exists |
| `Editor.EditorPage.OnUniversalSkipBackward` | nextjs-frontend/src/app/editor/page.tsx:122-130 | moves every player to the lowest-id player's time − 5, unclamped; changes nothing when no player exists |
| `Editor.EditorPage.SkipBy` | nextjs-frontend/src/app/editor/page.tsx:113-119 | the common body of both skip handlers: the record becomes `Mixer.AfterSkip` of the old one, and the flags and focus are unchanged |
| `Editor.EditorPage.HandleKeyDown` | nextjs-frontend/src/app/editor/page.tsx:134-148 | dispatches space and the arrow keys to their handlers and prevents their default; any other key changes nothing |
| `Track.SliderValue` | nextjs-frontend/src/components/track.tsx:77 | the slider shows 0 exactly when another (truthy) track is focused or the volume is 0, and the stored volume otherwise |
| `Track.MuteVariant` | nextjs-frontend/src/components/track.tsx:86 | the mute button is "destructive" exactly when the row is dimmed |
| `Track.MuteClick` | nextjs-frontend/src/components/track.tsx:87-89 | a mute click requests volume 1 exactly when the button is "destructive" and 0 otherwise, always for this row's id |
| `Track.SoloVariant` | nextjs-frontend/src/components/track.tsx:103 | the solo button shows "success" exactly when this track is focused |
| `Track.SoloClick` | nextjs-frontend/src/components/track.tsx:104-106 | a solo click requests no focus exactly when this track is focused, and otherwise focus on this track |
| `Track.OnReady` | nextjs-frontend/src/components/track.tsx:52-55 | the player is registered under this row's id with its volume set to the volume prop, its time and play state untouched |
| `Track.OnVolumeChange` | nextjs-frontend/src/components/track.tsx:57-59 | every volume change is forwarded with this row's own id |
| `Track.OtherFocused` | nextjs-frontend/src/components/track.tsx:77 | definition of the truthiness test `focused && focused != id` (also at lines 63, 86 and 88): it holds only for a focus on another track, and never for a focus of 0 |
| `Track.Dimmed` | nextjs-frontend/src/components/track.tsx:63 | definition of the dim condition: a silent row is always dimmed; with no focus, or with this track focused, a row is dimmed exactly when silent |
| `Track.SliderShowsPlayerVolume` | nextjs-frontend/src/components/track.tsx:77 | while the players are in sync, the slider shows exactly the volume the track's player plays at |
| `Track.DimmedIffSilent` | nextjs-frontend/src/components/track.tsx:63 | while the players are in sync, a row is dimmed exactly when its player is silent |
| `Track.MuteClickFlipsDimming` | nextjs-frontend/src/components/track.tsx:86-89 | a mute click, once the page handles it, flips whether the row is dimmed |
| `Track.VolumeChangeReachesOwnTrack` | nextjs-frontend/src/components/track.tsx:57-59 | a row's volume change sets that row's volume prop and no other row's |
| `Track.SoloClickToggles` | nextjs-frontend/src/components/track.tsx:103-106 | two solo clicks end where they started when the track was focused or nothing was; the first lights the button |
| `Track.ReadyKeepsSyncIff` | nextjs-frontend/src/components/track.tsx:52-55 | corollary of `Mixer.RegisterSync` for the player `onReady` hands over: the mix stays in sync iff the row's volume prop equals what its reset entry calls for |
| `Text.ToLower` | nextjs-frontend/src/components/projects.tsx:56 | lower-casing keeps the length and lowers each ASCII capital |
| `Text.Includes` | nextjs-frontend/src/components/projects.tsx:58-59 | definition of `includes`: an occurrence at some position; a match needs the query to be no longer than the string, and a prefix always matches |
| `Text.EverythingIncludesEmpty` | nextjs-frontend/src/components/projects.tsx:58 | every string includes the empty query |
| `Text.TrimStart` | nextjs-frontend/src/components/projects.tsx:97 | removes exactly the leading white space: the result is a suffix that starts with a non-space, and the removed prefix is blank |
| `Text.TrimEnd` | nextjs-frontend/src/components/projects.tsx:97 | removes exactly the trailing white space: the result is a prefix that ends with a non-space, and the removed suffix is blank |
| `Text.Trim` | nextjs-frontend/src/components/projects.tsx:97 | definition of `trim()` as both trims: the result is no longer than the string, and is empty or starts and ends with a non-space |
| `Text.TrimEmptyIffBlank` | nextjs-frontend/src/components/projects.tsx:97 | `trim()` yields `''` exactly when the string is all white space |
| `Text.LexTotal` | nextjs-frontend/src/components/projects.tsx:85-89 | any two collation keys are ordered one way or the other |
| `Text.LexTransitive` | nextjs-frontend/src/components/projects.tsx:85-89 | the collation order is transitive |
| `Projects.Filter` | nextjs-frontend/src/components/projects.tsx:55-61 | keeps a project iff its lower-cased title or file includes the lower-cased query; never longer than the list |
| `Projects.Matches` | nextjs-frontend/src/components/projects.tsx:56-59 | definition of the filter's test: every project matches the empty query, and a match needs the query to be no longer than the title or the file name |
| `Projects.FilterKeepsCounts` | nextjs-frontend/src/components/projects.tsx:55-61 | the filtered list holds each matching project exactly as many times as the list does, and no non-matching one |
| `Projects.FilterIsSubsequence` | nextjs-frontend/src/components/projects.tsx:55-61 | the filtered list keeps the list's order |
| `Projects.EmptyQueryKeepsAll` | nextjs-frontend/src/components/projects.tsx:55-61 | an empty query keeps every project |
| `Projects.QueryCaseInsensitive` | nextjs-frontend/src/components/projects.tsx:56-59 | a query and its lower-cased form select the same projects |
| `Projects.LeTotal` | nextjs-frontend/src/components/projects.tsx:78-89 | each comparator orders any two projects one way or the other |
| `Projects.LeTransitive` | nextjs-frontend/src/components/projects.tsx:78-89 | each comparator is transitive |
| `Projects.AdjacentSortedIsSorted` | nextjs-frontend/src/components/projects.tsx:76-90 | a list ordered pair by neighbouring pair is ordered throughout |
| `Projects.ActiveOrder` | nextjs-frontend/src/components/projects.tsx:77-90 | definition of which comparator sorts the shown list: the date flag takes precedence (newest first when true), then the name flag (ascending when true), and no sort when both are null |
| `Projects.Le` | nextjs-frontend/src/components/projects.tsx:78-89 | definition (no contract of its own) of the four comparators: later date first, earlier date first, collation key ascending, collation key descending |
| `Projects.NextToggle` | nextjs-frontend/src/components/projects.tsx:155-156 | a header click always leaves its flag set, flipping it when it was set |
| `Projects.ToggleCycle` | nextjs-frontend/src/components/projects.tsx:154-156 | the flag goes null → true, then alternates false/true |
| `Projects.Rename` | nextjs-frontend/src/components/projects.tsx:102-106 | the titles of exactly the projects with the id become the new name; length, order, ids, files and dates are unchanged |
| `Projects.SubmitRename` | nextjs-frontend/src/components/projects.tsx:97-106 | a name that trims to nothing leaves the list unchanged; any other name renames, untrimmed |
| `Projects.RenameUnknownIdIsNoop` | nextjs-frontend/src/components/projects.tsx:102-106 | renaming an id that no project has changes nothing |
| `Projects.RowHref` | nextjs-frontend/src/components/projects.tsx:203 | a row links to its project's editor page exactly when no rename is in progress, and to the list otherwise |
| `ProjectList.SortInPlace` | nextjs-frontend/src/components/projects.tsx:78-89 | the in-place sort leaves the array ordered by the comparator and a permutation of what it was |
| `ProjectList.DisplayedProjects` | nextjs-frontend/src/components/projects.tsx:76-90 | the shown list is a permutation of the filtered list; the date flag wins (newest first when true), else the name flag (ascending when true); neither keeps filter order |
| `ProjectList.ProjectsView.constructor` | nextjs-frontend/src/components/projects.tsx:40-47 | starts with the given projects, an empty search, the date sort descending, the name sort off and no rename |
| `ProjectList.ProjectsView.SetSearchQuery` | nextjs-frontend/src/components/projects.tsx:134 | typing in the search box sets the query |
| `ProjectList.ProjectsView.OnNameHeaderClick` | nextjs-frontend/src/components/projects.tsx:153-157 | clears the date flag and advances the name flag; at most one flag stays set |
| `ProjectList.ProjectsView.OnDateHeaderClick` | nextjs-frontend/src/components/projects.tsx:174-178 | clears the name flag and advances the date flag; at most one flag stays set |
| `ProjectList.ProjectsView.BeginRename` | nextjs-frontend/src/components/projects.tsx:260-263 | starts renaming the project, with its current title as the new name |
| `ProjectList.ProjectsView.SetNewName` | nextjs-frontend/src/components/projects.tsx:237 | typing in the rename box sets the new name |
| `ProjectList.ProjectsView.HandleRenameSubmit` | nextjs-frontend/src/components/projects.tsx:92-114 | applies a non-blank name and leaves a blank one without effect; afterwards no rename is in progress and the new name is `''` |
| `ProjectList.ProjectsView.OnRowLinkClick` | nextjs-frontend/src/components/projects.tsx:204-207 | following a row's link leaves rename mode |
| `ProjectList.ProjectsView.Rows` | nextjs-frontend/src/components/projects.tsx:55-90 | the table shows the projects matching the search, each as many times as the filtered list holds it (same multiset), in the active sort order, or in list order when no sort is set |

## Left out

- The waveform player itself is left out: audio decoding, waveform drawing, the regions plugin, drag events, and how `setTime` clamps. A player is the record `{volume, time, playing}`, and a call on it replaces the track's entry.
- Aliasing is left out: one player registered under two ids is two independent values here.
- `setStart`/`setEnd` and the drag handlers that call them are left out. The page never passes them.
- The row's `onFinish` (which sets `isPlaying` to false) and `onRedrawcomplete` (a log line) are left out.
- Timers are left out. The 100 ms delay before `isSeeking` is cleared is represented only by `SeekSettled`, which may run at any time. The rename input's focus timer is presentation.
- React's render timing is left out. Handlers run one after another on the current state. When several seek events read the same stale `isSeeking` within one render, the source lets all of them through; the model does not show this.
- Adding and removing the key listener is left out, as are `preventDefault` and `keyCode` beyond the returned flag.
- Track ids are natural numbers, and `Mixer.EnumerationOrder` visits them in ascending order. JavaScript does this only for array-index keys (integers below 2^32 − 1). It enumerates larger integer keys, negative keys and non-integer keys in insertion order, which is not modelled. The page uses ids 1 to 6.
- Volumes and times are reals, so floating-point rounding is left out.
- Dates are integer timestamps. Parsing, invalid dates (`NaN`) and `toDateString` are left out.
- `localeCompare` is a collation key function passed in by the caller, compared lexicographically. Real locale rules are left out.
- `toLowerCase` lowers ASCII capitals only.
- `ProjectList.SortInPlace`: stability is not stated, although `Array.prototype.sort` is stable and the insertion sort used here is too.
- `ProjectList.DisplayedProjects`: stability is not stated, so projects with equal keys may appear in any order.
- `ProjectList.ProjectsView.Rows`: stability is not stated either. Rows with equal sort keys may appear in any order, while the source keeps them in filter order.
- `Mixer.SkipBackUndoesSkipForward`: holds only for handler calls with no playback time between them. The invariant `Aligned` has the same limit. In the model, a player's time changes only through `setTime`, and playing does not advance it. `getCurrentTime()` in the source advances during playback.
- The table's rendering is left out, including whether a row shows a link or a rename box and the `hasMounted` animation flag.
- The Share and Delete menu items are left out; they have no behaviour. The Share dialog is left out too.
- The navigation bar and the SVG icons are left out.
- The save call that a rename would make to a server is left out. The source only has a placeholder for it.
