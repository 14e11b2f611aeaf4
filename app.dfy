/**
  `App` of src/app.rs as a class whose methods update its fields in place.
  Each method is proved to move the state exactly as the matching function
  of module Registry says; the properties of those functions are proved
  there.
 */
module TodoApp {
  import opened Models
  import opened Registry

  class App {
    var items: map<u32, TodoItem>
    var nextId: u32
    var currentlyEdited: Option<Draft>

    /** The fields as one value. */
    function State(): AppState
      reads this
    {
      AppState(items, nextId, currentlyEdited)
    }

    /** The invariant every public method keeps (`SaveItem` only for an id already handed out). */
    ghost predicate Valid()
      reads this
    {
      IdsBelowCounter(State())
    }

    /** `App::default()`. */
    constructor ()
      ensures State() == Initial()
      ensures Valid()
    {
      items := map[];
      nextId := 0;
      currentlyEdited := None;
    }

    method AddItem()
      requires nextId < U32_MAX
      modifies this
      ensures State() == Added(old(State()))
      ensures old(Valid()) ==> Valid()
    {
      items := items[nextId := Default()];
      nextId := nextId + 1;
    }

    method RemoveItem(id: u32)
      modifies this
      ensures State() == Removed(old(State()), id)
      ensures old(Valid()) ==> Valid()
    {
      items := items - {id};
    }

    method SaveItem(id: u32, item: TodoItem)
      modifies this
      ensures State() == Saved(old(State()), id, item)
      ensures old(Valid()) && id < nextId ==> Valid()
    {
      items := items[id := item];
    }

    method ToggleCompletion(id: u32)
      modifies this
      ensures State() == Toggled(old(State()), id)
      ensures old(Valid()) ==> Valid()
    {
      if id in items {
        var item := items[id];
        items := items[id := item.(completed := !item.completed)];
      }
    }

    /** A click on the label of a listed entry: its clone becomes the only draft. */
    method OpenDraft(id: u32)
      requires id in items
      modifies this
      ensures State() == Opened(old(State()), id)
      ensures old(Valid()) ==> Valid()
    {
      currentlyEdited := Some(Draft(id, Clone(items[id])));
    }

    /** `self.currently_edited.take()`. */
    method TakeDraft() returns (d: Option<Draft>)
      modifies this
      ensures (d, State()) == Taken(old(State()))
      ensures old(Valid()) ==> Valid()
    {
      d := currentlyEdited;
      currentlyEdited := None;
    }

    /**
      One frame of the edit window: the draft is taken, edited in isolation,
      and the buttons pressed this frame decide its fate.
     */
    method ShowEditWindow(e: EditInput, save: bool, remove: bool, close: bool)
      modifies this
      ensures State() == EditFrame(old(State()), e, save, remove, close)
      ensures old(Valid()) ==> Valid()
    {
      var taken := TakeDraft();
      if taken.Some? {
        var id := taken.value.id;
        var item := Edited(taken.value.item, e);
        if save {
          SaveItem(id, item);
        } else if remove {
          RemoveItem(id);
        } else if !close {
          currentlyEdited := Some(Draft(id, item));
        }
      }
    }
  }

  /**
    The scenario of `Interaction.ScenarioIdsNotReused`, run through the class
    methods instead of the event model: create two entries, delete the first
    through its edit window, create a third; id 0 is not reused and the two
    live entries are 1 and 2.
   */
  method ScenarioOnClass()
  {
    var app := new App();
    app.AddItem();
    app.AddItem();
    app.OpenDraft(0);
    app.ShowEditWindow(NoEdit, false, true, true);
    app.AddItem();
    assert app.items.Keys == {1, 2};
    assert app.items == map[1 := Default(), 2 := Default()];
    assert app.nextId == 3 && app.currentlyEdited.None?;
  }
}
