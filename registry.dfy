/**
  The state of `App` in src/app.rs as a value, and each of its operations as
  a function from the old state to the new one. The class in app.dfy is
  proved to follow these functions; the lemmas here state what the
  operations promise: which keys they touch, that the id counter only grows,
  that every stored key is below the counter, that toggling is its own
  inverse, that removal is idempotent, and how an edit window is resolved.
 */
module Registry {
  import opened Models

  /** Rust's `u32`. */
  newtype u32 = x: int | 0 <= x < 0x1_0000_0000

  const U32_MAX: u32 := 0xFFFF_FFFF

  datatype Option<T> = None | Some(value: T)

  /** The edit draft `currently_edited`: the id being edited and a detached copy of its entry. */
  datatype Draft = Draft(id: u32, item: TodoItem)

  /** The fields of `App`: the stored entries, the id counter and the optional draft. */
  datatype AppState = AppState(items: map<u32, TodoItem>, nextId: u32, draft: Option<Draft>)

  /** Every stored key, and the draft's id, is below the counter, so the counter is a fresh id. */
  ghost predicate IdsBelowCounter(s: AppState)
  {
    && (forall k :: k in s.items ==> k < s.nextId)
    && (s.draft.Some? ==> s.draft.value.id < s.nextId)
  }

  /** An open draft always edits an entry that is stored. */
  ghost predicate DraftOnStoredItem(s: AppState)
  {
    s.draft.Some? ==> s.draft.value.id in s.items
  }

  ghost predicate Invariant(s: AppState)
  {
    IdsBelowCounter(s) && DraftOnStoredItem(s)
  }

  /** Entries other than `id` are the same in both states: same keys, same values. */
  ghost predicate SameExcept(a: map<u32, TodoItem>, b: map<u32, TodoItem>, id: u32)
  {
    && (forall k :: k in a && k != id ==> k in b && b[k] == a[k])
    && (forall k :: k in b && k != id ==> k in a)
  }

  /** `App::default()`: nothing stored, counter at zero, no draft. */
  function Initial(): (s: AppState)
    ensures |s.items| == 0 && s.nextId == 0 && s.draft.None?
    ensures Invariant(s)
  {
    AppState(map[], 0, None)
  }

  /**
    `add_item`: a default entry under the current counter, then the counter
    moves on by one. The increment cannot pass `u32::MAX`.
   */
  function Added(s: AppState): (t: AppState)
    requires s.nextId < U32_MAX
    ensures t.nextId == s.nextId + 1 && t.draft == s.draft
    ensures s.nextId in t.items && t.items[s.nextId] == Default()
    ensures t.items.Keys == s.items.Keys + {s.nextId}
    ensures SameExcept(s.items, t.items, s.nextId)
  {
    s.(items := s.items[s.nextId := Default()], nextId := s.nextId + 1)
  }

  /** `remove_item`: `id` is gone, whether or not it was stored. */
  function Removed(s: AppState, id: u32): (t: AppState)
    ensures t.nextId == s.nextId && t.draft == s.draft
    ensures id !in t.items
    ensures t.items.Keys == s.items.Keys - {id}
    ensures SameExcept(s.items, t.items, id)
  {
    s.(items := s.items - {id})
  }

  /** `save_item`: `id` maps to exactly `item`, whatever it held before. */
  function Saved(s: AppState, id: u32, item: TodoItem): (t: AppState)
    ensures t.nextId == s.nextId && t.draft == s.draft
    ensures id in t.items && t.items[id] == item
    ensures t.items.Keys == s.items.Keys + {id}
    ensures SameExcept(s.items, t.items, id)
  {
    s.(items := s.items[id := item])
  }

  /** `toggle_completion`: the entry's flag is inverted if `id` is stored; nothing happens otherwise. */
  function Toggled(s: AppState, id: u32): (t: AppState)
    ensures t.nextId == s.nextId && t.draft == s.draft
    ensures t.items.Keys == s.items.Keys
    ensures SameExcept(s.items, t.items, id)
    ensures id in s.items ==> t.items[id] == Flipped(s.items[id])
    ensures id !in s.items ==> t == s
  {
    if id in s.items then s.(items := s.items[id := Flipped(s.items[id])]) else s
  }

  /**
    A click on the label of stored entry `id`: a clone of the entry becomes
    the draft, replacing any draft that was open.
   */
  function Opened(s: AppState, id: u32): (t: AppState)
    requires id in s.items
    ensures t.items == s.items && t.nextId == s.nextId
    ensures t.draft == Some(Draft(id, s.items[id]))
  {
    s.(draft := Some(Draft(id, Clone(s.items[id]))))
  }

  /** `currently_edited.take()`: the draft handed out and the state left with none. */
  function Taken(s: AppState): (r: (Option<Draft>, AppState))
    ensures r.0 == s.draft
    ensures r.1.items == s.items && r.1.nextId == s.nextId && r.1.draft.None?
  {
    (s.draft, s.(draft := None))
  }

  /**
    What the three edit widgets did in one frame: a new name if the name
    field was typed in, a new description if that field was, and whether
    the completion checkbox was clicked.
   */
  datatype EditInput = EditInput(name: Option<string>, description: Option<string>, flipCompleted: bool)

  const NoEdit: EditInput := EditInput(None, None, false)

  /** The draft's entry after one frame of editing; each widget changes only its own field. */
  function Edited(item: TodoItem, e: EditInput): (r: TodoItem)
    ensures r.name == (if e.name.Some? then e.name.value else item.name)
    ensures r.description == (if e.description.Some? then e.description.value else item.description)
    ensures r.completed == (item.completed != e.flipCompleted)
    ensures e == NoEdit ==> r == item
  {
    TodoItem(
      if e.name.Some? then e.name.value else item.name,
      if e.description.Some? then e.description.value else item.description,
      if e.flipCompleted then !item.completed else item.completed)
  }

  /**
    The match that closes an edit frame, on a state whose draft was taken:
    save wins over remove, remove over keeping the window, and with only
    `close` set the draft is dropped.
   */
  function Resolved(s: AppState, d: Draft, save: bool, remove: bool, close: bool): (t: AppState)
    requires s.draft.None?
    ensures t.nextId == s.nextId
    ensures save ==> d.id in t.items && t.items[d.id] == d.item && t.draft.None?
    ensures !save && remove ==> d.id !in t.items && t.draft.None?
    ensures save || remove ==> SameExcept(s.items, t.items, d.id)
    ensures !save && !remove ==> t.items == s.items
    ensures !save && !remove && !close ==> t.draft == Some(d)
    ensures !save && !remove && close ==> t.draft.None?
  {
    if save then Saved(s, d.id, d.item)
    else if remove then Removed(s, d.id)
    else if !close then s.(draft := Some(d))
    else s
  }

  /**
    One frame of the edit window (src/app.rs:101-142): take the draft, apply
    the frame's edits to the detached copy, then resolve the buttons. With no
    draft open nothing happens.
   */
  function EditFrame(s: AppState, e: EditInput, save: bool, remove: bool, close: bool): (t: AppState)
    ensures t.nextId == s.nextId
    ensures s.draft.None? ==> t == s
  {
    var (d, s') := Taken(s);
    match d
    case None => s
    case Some(d) => Resolved(s', Draft(d.id, Edited(d.item, e)), save, remove, close)
  }

  // ---------------------------------------------------------------------
  // Invariants each operation preserves

  /** A fresh id is never a stored key, so adding keeps every old entry and grows the map by one. */
  lemma AddedKeepsInvariant(s: AppState)
    requires Invariant(s) && s.nextId < U32_MAX
    ensures s.nextId !in s.items
    ensures |Added(s).items| == |s.items| + 1
    ensures forall k :: k in s.items ==> k in Added(s).items && Added(s).items[k] == s.items[k]
    ensures Invariant(Added(s))
  {
  }

  lemma RemovedKeepsIdsBelowCounter(s: AppState, id: u32)
    requires IdsBelowCounter(s)
    ensures IdsBelowCounter(Removed(s, id))
  {
  }

  /** Saving keeps keys below the counter when the id is one the counter already handed out. */
  lemma SavedKeepsIdsBelowCounter(s: AppState, id: u32, item: TodoItem)
    requires IdsBelowCounter(s) && id < s.nextId
    ensures IdsBelowCounter(Saved(s, id, item))
  {
  }

  lemma ToggledKeepsInvariant(s: AppState, id: u32)
    requires Invariant(s)
    ensures Invariant(Toggled(s, id))
  {
  }

  lemma OpenedKeepsInvariant(s: AppState, id: u32)
    requires Invariant(s) && id in s.items
    ensures Invariant(Opened(s, id))
  {
  }

  /** Resolving a draft opened on a stored entry never adds a key and keeps the invariant. */
  lemma EditFrameKeepsInvariant(s: AppState, e: EditInput, save: bool, remove: bool, close: bool)
    requires Invariant(s)
    ensures EditFrame(s, e, save, remove, close).items.Keys <= s.items.Keys
    ensures Invariant(EditFrame(s, e, save, remove, close))
  {
  }

  // ---------------------------------------------------------------------
  // Algebraic properties of the operations

  /** Removing twice is removing once; removing an absent id changes nothing. */
  lemma RemoveIdempotent(s: AppState, id: u32)
    ensures Removed(Removed(s, id), id) == Removed(s, id)
    ensures id !in s.items ==> Removed(s, id) == s
  {
  }

  /** Toggling the same id twice restores the original state. */
  lemma ToggleSelfInverse(s: AppState, id: u32)
    ensures Toggled(Toggled(s, id), id) == s
  {
  }

  /** Saving replaces the whole entry: a toggle made while the draft was open is overwritten. */
  lemma SaveOverwritesToggle(s: AppState, id: u32, item: TodoItem)
    ensures Saved(Toggled(s, id), id, item) == Saved(s, id, item)
  {
  }

  /** Saving twice under one id keeps only the second value. */
  lemma SaveLastWins(s: AppState, id: u32, a: TodoItem, b: TodoItem)
    ensures Saved(Saved(s, id, a), id, b) == Saved(s, id, b)
  {
  }

  /** With both save and remove requested, the entry is saved, not deleted. */
  lemma SaveBeatsRemove(s: AppState, d: Draft, close: bool)
    requires s.draft.None?
    ensures Resolved(s, d, true, true, close) == Resolved(s, d, true, false, close)
    ensures d.id in Resolved(s, d, true, true, close).items
  {
  }

  /**
    The draft is detached: while it is edited and the window stays open, or
    is cancelled, the stored entries do not change.
   */
  lemma DraftIsDetached(s: AppState, e: EditInput, close: bool)
    requires s.draft.Some?
    ensures EditFrame(s, e, false, false, close).items == s.items
    ensures !close ==> EditFrame(s, e, false, false, close).draft
                       == Some(Draft(s.draft.value.id, Edited(s.draft.value.item, e)))
    ensures close ==> EditFrame(s, e, false, false, close).draft.None?
  {
  }

  /** Opening a draft twice keeps only the second one: there is never more than one draft. */
  lemma OpenReplacesDraft(s: AppState, a: u32, b: u32)
    requires a in s.items && b in s.items
    ensures Opened(Opened(s, a), b) == Opened(s, b)
  {
  }

  /**
    Opening an entry, typing a new name and saving stores the entry with
    that name and its other fields as they were.
   */
  lemma EditRoundTrip(s: AppState, id: u32, name: string)
    requires id in s.items
    ensures var t := EditFrame(Opened(s, id), EditInput(Some(name), None, false), true, false, true);
            && id in t.items
            && t.items[id] == s.items[id].(name := name)
            && t.draft.None?
            && SameExcept(s.items, t.items, id)
  {
  }

  /** Opening an entry and cancelling leaves the stored entries as they were. */
  lemma EditCancelRoundTrip(s: AppState, id: u32, e: EditInput)
    requires id in s.items
    ensures EditFrame(Opened(s, id), e, false, false, true).items == s.items
    ensures EditFrame(Opened(s, id), e, false, false, true).draft.None?
  {
  }
}
