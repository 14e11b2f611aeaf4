# Todo List Manager: the registry state machine

This project models the state kept by `App`, the struct behind a small
desktop to-do list written in Rust. The model proves properties of it in
Dafny.

`App` holds three things:

- `items`: a map from `u32` ids to `TodoItem` records. Each record has a
  name, a description and a completion flag.
- `next_id`: the counter that hands out ids.
- `currently_edited`: the single optional edit draft.

Its operations are `add_item`, `remove_item`, `save_item` and
`toggle_completion`. Around them sits the edit-window lifecycle inside
`update`:

- a click on a list label copies the entry into the draft;
- each frame the draft is taken out of the struct and edited as a detached
  value;
- the Save / Remove / Cancel flags then decide what happens: save the draft,
  delete the entry, keep the window open, or drop the draft.

Files:

- `models.dfy` (module `Models`): `TodoItem`, its default value, and the
  derived `Clone` and `PartialEq`.
- `registry.dfy` (module `Registry`): the whole state as a value
  (`AppState`). Each operation is a function from the old state to the new
  one. The edit-window match is lifted into `Resolved`, and one window frame
  into `EditFrame`. The lemmas state invariants, idempotence, self-inverse
  and precedence.
- `app.dfy` (module `TodoApp`): `App` as a class. Its `map`, `u32` and
  `Option` fields are updated in place, and each method is proved to follow
  its `Registry` function.
- `interaction.dfy` (module `Interaction`): the user's clicks as events,
  and runs as sequences of events. It proves that ids only grow, that an id
  is never handed out twice, and that the invariant holds along every run.
  A run's only precondition is that the `u32` counter has room for the
  creations in it; other events never touch the counter.

Removal precedence: when both Save and Remove are pressed in one frame, the
save arm at `src/app.rs:138` is tried before the remove arm at
`src/app.rs:139`, so the entry is saved, not deleted
(`Registry.SaveBeatsRemove`).

## Model

| member | source | states |
|---|---|---|
| `Models.Default` | src/models.rs:8-16 | the default entry is named "Nova Tarefa", has an empty description and is not completed |
| `Models.Clone` | src/models.rs:1-6 | a clone of an entry is equal to the original, so the draft and the list snapshot are plain value copies |
| `Models.Equals` | src/models.rs:1-6 | derived equality holds iff name, description and completed are all equal, i.e. exactly when the values are equal |
| `Models.Flipped` | src/app.rs:31 | flipping keeps name and description and inverts `completed` |
| `Models.FlippedTwice` | src/app.rs:31 | flipping twice gives back the original entry |
| `Registry.Initial` | src/app.rs:36-43 | the default app stores nothing, has its counter at 0 and no draft, and satisfies the invariant |
| `Registry.Added` | src/app.rs:16-19 | adding stores the default entry under the old counter, increments the counter by exactly 1, adds only that key and leaves the draft alone |
| `Registry.Removed` | src/app.rs:21-23 | removing deletes exactly `id` (nothing if absent), keeps every other entry and leaves the counter and draft unchanged |
| `Registry.Saved` | src/app.rs:25-27 | saving makes `id` map to exactly the given entry, keeps every other entry and leaves the counter and draft unchanged |
| `Registry.Toggled` | src/app.rs:29-33 | toggling inverts only the flag of a stored `id` and keeps the other fields, keys and entries; an absent `id` leaves the state unchanged |
| `Registry.Opened` | src/app.rs:78-80 | a label click makes a copy of the stored entry the draft, replacing any earlier draft, and leaves the entries and counter unchanged |
| `Registry.Taken` | src/app.rs:101 | `take()` hands out the draft and leaves no draft behind, with entries and counter unchanged |
| `Registry.Edited` | src/app.rs:113-117 | each edit widget replaces only its own field of the draft copy; with no input the copy is unchanged |
| `Registry.Resolved` | src/app.rs:137-142 | save stores the draft and clears it, even when remove is also set; remove alone deletes the key and clears the draft; no flag keeps the draft with entries untouched; close alone drops the draft with entries untouched; the counter never changes |
| `Registry.EditFrame` | src/app.rs:101-143 | an edit frame never changes the counter and does nothing when no draft is open |
| `Registry.AddedKeepsInvariant` | src/app.rs:16-19 | under the invariant the new id is not stored yet, so every old entry survives, the map grows by one and the invariant holds afterwards |
| `Registry.RemovedKeepsIdsBelowCounter` | src/app.rs:21-23 | removal keeps every key (and the draft id) below the counter |
| `Registry.SavedKeepsIdsBelowCounter` | src/app.rs:25-27 | saving under an id below the counter keeps every key below the counter |
| `Registry.ToggledKeepsInvariant` | src/app.rs:29-33 | toggling keeps the invariant |
| `Registry.OpenedKeepsInvariant` | src/app.rs:79 | opening a draft on a stored entry keeps the invariant |
| `Registry.EditFrameKeepsInvariant` | src/app.rs:101-142 | an edit frame on a valid state never adds a key and keeps the invariant, so saving a draft only overwrites an existing key |
| `Registry.RemoveIdempotent` | src/app.rs:21-23 | removing twice equals removing once, and removing an absent id changes nothing |
| `Registry.ToggleSelfInverse` | src/app.rs:29-33 | toggling the same id twice restores the original state |
| `Registry.SaveOverwritesToggle` | src/app.rs:25-27 | a toggle made in the list while a draft is open is overwritten when the draft is saved |
| `Registry.SaveLastWins` | src/app.rs:25-27 | saving twice under one id keeps only the second entry |
| `Registry.SaveBeatsRemove` | src/app.rs:137-139 | with both save and remove set, the result is the same as save alone and the entry stays stored |
| `Registry.DraftIsDetached` | src/app.rs:101-142 | edits to the draft do not reach the entries without save or remove: the draft stays open with the edits, or cancel drops it |
| `Registry.OpenReplacesDraft` | src/app.rs:79 | opening a second entry replaces the first draft, so there is at most one draft |
| `Registry.EditRoundTrip` | src/app.rs:101-142 | open, type a new name and save: the entry has the new name, its other fields are unchanged, the draft is closed and other entries are untouched |
| `Registry.EditCancelRoundTrip` | src/app.rs:125-142 | open, edit and cancel: the entries are unchanged and the draft is closed |
| `TodoApp.App.constructor` | src/app.rs:36-43 | a new app is the initial state and valid |
| `TodoApp.App.AddItem` | src/app.rs:16-19 | updates the fields as `Added` does and keeps the invariant |
| `TodoApp.App.RemoveItem` | src/app.rs:21-23 | updates the fields as `Removed` does and keeps the invariant |
| `TodoApp.App.SaveItem` | src/app.rs:25-27 | updates the fields as `Saved` does and keeps the invariant for an id below the counter |
| `TodoApp.App.ToggleCompletion` | src/app.rs:29-33 | updates the fields as `Toggled` does and keeps the invariant |
| `TodoApp.App.OpenDraft` | src/app.rs:79 | updates the fields as `Opened` does and keeps the invariant |
| `TodoApp.App.TakeDraft` | src/app.rs:101 | returns the draft and clears it, as `Taken` does |
| `TodoApp.App.ShowEditWindow` | src/app.rs:101-142 | take, edit and match on the flags in place, ending in the state `EditFrame` gives |
| `Interaction.Step` | src/app.rs:62-142 | a click on add increments the counter by one; every other event leaves the counter unchanged |
| `Interaction.Run` | src/app.rs:18 | across any run whose creations fit below `u32::MAX` the counter grows by exactly the number of creations, so it never decreases |
| `Interaction.MonotonicIds` | src/app.rs:16-19 | the ids handed out in a run are strictly increasing, one per creation, at or above the starting counter and below the final counter |
| `Interaction.IdsNeverReused` | src/app.rs:16-23 | no id handed out in a run was stored when the run began, even if it was removed in between |
| `Interaction.StepKeepsInvariant` | src/app.rs:62-142 | every event keeps keys below the counter and keeps the draft on a stored entry |
| `Interaction.RunKeepsInvariant` | src/app.rs:62-142 | every run from a valid state ends in a valid state |
| `Interaction.CounterLimitCountsOnlyCreations` | src/app.rs:16-19 | only creations use up the counter: from one below `u32::MAX`, a checkbox click then a creation ends with the counter at `u32::MAX` |
| `Interaction.ScenarioIdsNotReused` | src/app.rs:16-23 | create, create, delete 0 through its edit window, create: ids 0, 1, 2 are handed out, and entries 1 and 2 remain with default values |

## Left out

- Rendering with egui/eframe is not modelled: panels, scroll area, labels,
  headings, viewport builder and titles. Only the state effects of clicks
  and of the edit widgets are modelled, as the `Interaction.Event` values
  and the `Registry.EditInput` record.
- The "Sair" button calls `std::process::exit(0)`. That is process control,
  not registry state.
- `src/main.rs` is not part of this model. It only builds the window
  options and starts the event loop.
- `App::name()` is not modelled. It is a constant window title.
- The iteration order of the cloned `HashMap` snapshot is unspecified. The
  model renders the snapshot as the map itself, so it does not model order.
- The model does not give one frame's events as a fixed order: list
  clicks, then the add button, then the edit window. A run is any sequence
  of events, which includes every frame's order.
- `TodoApp.App.AddItem`: the counter is a `u32`, and adding requires
  `next_id < u32::MAX`. At the limit the source panics in a debug build and
  wraps in a release build; neither is modelled.
- `TodoApp.App.OpenDraft`: requires the id to be stored. In the source a
  label is drawn only for stored entries, and the snapshot entry equals the
  live entry when it is clicked, so the draft copies the live entry.
- `TodoApp.App.Valid`: "every key is below `next_id`" is not enforced by
  the source's API: `save_item` is public and accepts any id
  (src/app.rs:25-27). Every public method keeps `Valid()` except
  `SaveItem` with an id not yet handed out, which breaks it; the model
  promises `Valid()` after `SaveItem` only for an id below the counter.
  `Valid()` also leaves out "the draft edits a stored entry", which a
  direct `RemoveItem` of the draft's id breaks. Both hold along every run
  of UI events (`Interaction.RunKeepsInvariant`), where saving happens only
  through the edit window on a stored id.
- `Interaction.Step`: a label click or checkbox click on an id that is not
  stored does nothing, because no such widget is drawn.
