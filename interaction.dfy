/**
  The state effects of the user's clicks in `App::update` (src/app.rs:46-145),
  without the rendering: the "Adicionar Item" button, a list checkbox, a list
  label, and one frame of the edit window with what its widgets and buttons
  did. A run is any sequence of such events; the lemmas state what holds
  across every run: the counter only grows, the ids handed out are strictly
  increasing and never an id stored before, and the invariant of module
  Registry holds throughout.
 */
module Interaction {
  import opened Models
  import opened Registry

  datatype Event =
    | ClickAdd
    | ClickCheckbox(id: u32)
    | ClickLabel(id: u32)
    | EditWindowFrame(edit: EditInput, save: bool, remove: bool, close: bool)

  /** The state after one event. Labels and checkboxes exist only for stored entries. */
  function Step(s: AppState, ev: Event): (t: AppState)
    requires ev.ClickAdd? ==> s.nextId < U32_MAX
    ensures t.nextId as int == s.nextId as int + (if ev.ClickAdd? then 1 else 0)
  {
    match ev
    case ClickAdd => Added(s)
    case ClickCheckbox(id) => Toggled(s, id)
    case ClickLabel(id) => if id in s.items then Opened(s, id) else s
    case EditWindowFrame(e, save, remove, close) => EditFrame(s, e, save, remove, close)
  }

  /** How many events of a run create an entry. */
  function Adds(evs: seq<Event>): (n: nat)
    ensures n <= |evs|
  {
    if evs == [] then 0 else (if evs[0].ClickAdd? then 1 else 0) + Adds(evs[1..])
  }

  /** The state after a run; the counter must have room for every creation in it (other events never touch it). */
  function Run(s: AppState, evs: seq<Event>): (t: AppState)
    requires s.nextId as int + Adds(evs) <= U32_MAX as int
    ensures t.nextId as int == s.nextId as int + Adds(evs)
    decreases |evs|
  {
    if evs == [] then s else Run(Step(s, evs[0]), evs[1..])
  }

  /** The ids handed out by the creations of a run, in order. */
  function Allocated(s: AppState, evs: seq<Event>): seq<u32>
    requires s.nextId as int + Adds(evs) <= U32_MAX as int
    decreases |evs|
  {
    if evs == [] then []
    else (if evs[0].ClickAdd? then [s.nextId] else []) + Allocated(Step(s, evs[0]), evs[1..])
  }

  /**
    Every creation of a run gets its own id: the ids are strictly
    increasing, at least the counter at the start and below the counter at
    the end, and there is one per creation.
   */
  lemma {:induction false} MonotonicIds(s: AppState, evs: seq<Event>)
    requires s.nextId as int + Adds(evs) <= U32_MAX as int
    ensures var ids := Allocated(s, evs);
            && |ids| == Adds(evs)
            && (forall i, j :: 0 <= i < j < |ids| ==> ids[i] < ids[j])
            && (forall i :: 0 <= i < |ids| ==> s.nextId <= ids[i] < Run(s, evs).nextId)
    decreases |evs|
  {
    if evs != [] {
      var t := Step(s, evs[0]);
      MonotonicIds(t, evs[1..]);
      var rest := Allocated(t, evs[1..]);
      var ids := Allocated(s, evs);
      assert Run(s, evs) == Run(t, evs[1..]);
      if evs[0].ClickAdd? {
        assert ids == [s.nextId] + rest;
        assert t.nextId as int == s.nextId as int + 1;
        PrependBelow(s.nextId, rest);
      } else {
        assert ids == rest;
        assert t.nextId == s.nextId;
      }
    }
  }

  /** Putting an id below every element in front of a strictly increasing sequence keeps it strictly increasing. */
  lemma PrependBelow(x: u32, rest: seq<u32>)
    requires forall i, j :: 0 <= i < j < |rest| ==> rest[i] < rest[j]
    requires forall i :: 0 <= i < |rest| ==> x < rest[i]
    ensures var ids := [x] + rest;
            forall i, j :: 0 <= i < j < |ids| ==> ids[i] < ids[j]
  {
    var ids := [x] + rest;
    forall i, j | 0 <= i < j < |ids| ensures ids[i] < ids[j] {
      assert ids[j] == rest[j - 1];
      if i > 0 {
        assert ids[i] == rest[i - 1];
      }
    }
  }

  /** No id a run hands out was stored when the run began, even if it was removed meanwhile. */
  lemma IdsNeverReused(s: AppState, evs: seq<Event>)
    requires s.nextId as int + Adds(evs) <= U32_MAX as int
    requires IdsBelowCounter(s)
    ensures forall i :: 0 <= i < |Allocated(s, evs)| ==> Allocated(s, evs)[i] !in s.items
  {
    MonotonicIds(s, evs);
  }

  lemma StepKeepsInvariant(s: AppState, ev: Event)
    requires ev.ClickAdd? ==> s.nextId < U32_MAX
    requires Invariant(s)
    ensures Invariant(Step(s, ev))
  {
  }

  /** Along every run from a valid state, keys stay below the counter and a draft edits a stored entry. */
  lemma {:induction false} RunKeepsInvariant(s: AppState, evs: seq<Event>)
    requires s.nextId as int + Adds(evs) <= U32_MAX as int
    requires Invariant(s)
    ensures Invariant(Run(s, evs))
    decreases |evs|
  {
    if evs != [] {
      StepKeepsInvariant(s, evs[0]);
      RunKeepsInvariant(Step(s, evs[0]), evs[1..]);
    }
  }

  /**
    Create, create, delete entry 0 from its edit window, create: the ids
    handed out are 0, 1 and 2, and entries 1 and 2 remain with default values.
   */
  lemma ScenarioIdsNotReused()
    ensures var evs := [ClickAdd, ClickAdd, ClickLabel(0), EditWindowFrame(NoEdit, false, true, true), ClickAdd];
            && Allocated(Initial(), evs) == [0, 1, 2]
            && Run(Initial(), evs).items == map[1 := Default(), 2 := Default()]
  {
    var evs := [ClickAdd, ClickAdd, ClickLabel(0), EditWindowFrame(NoEdit, false, true, true), ClickAdd];
    var d := Default();
    var s0 := Initial();
    var s1 := AppState(map[0 := d], 1, None);
    var s2 := AppState(map[0 := d, 1 := d], 2, None);
    var s3 := AppState(map[0 := d, 1 := d], 2, Some(Draft(0, d)));
    var s4 := AppState(map[1 := d], 2, None);
    var s5 := AppState(map[1 := d, 2 := d], 3, None);
    assert Step(s0, evs[0]) == s1;
    assert Step(s1, evs[1]) == s2;
    assert Step(s2, evs[2]) == s3;
    assert Step(s3, evs[3]) == s4 by {
      assert Edited(d, NoEdit) == d;
      assert s3.items - {0} == map[1 := d];
    }
    assert Step(s4, evs[4]) == s5;
    assert evs[1..][1..] == evs[2..] && evs[2..][1..] == evs[3..];
    assert evs[3..][1..] == evs[4..] && evs[4..][1..] == [];
    assert Run(s4, evs[4..]) == s5 && Allocated(s4, evs[4..]) == [2];
    assert Run(s3, evs[3..]) == s5 && Allocated(s3, evs[3..]) == [2];
    assert Run(s2, evs[2..]) == s5 && Allocated(s2, evs[2..]) == [2];
    assert Run(s1, evs[1..]) == s5 && Allocated(s1, evs[1..]) == [1, 2];
  }

  /**
    Only creations use up the counter: one id below the limit, a checkbox
    click followed by a creation still runs, and ends with the counter at
    `u32::MAX`.
   */
  lemma CounterLimitCountsOnlyCreations(s: AppState)
    requires s.nextId == U32_MAX - 1
    ensures Run(s, [ClickCheckbox(0), ClickAdd]).nextId == U32_MAX
  {
    var evs := [ClickCheckbox(0), ClickAdd];
    assert evs[1..][1..] == [];
  }
}
