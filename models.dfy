/**
  The to-do record of src/models.rs: a plain value with a name, a
  description and a completion flag, its default value, and the derived
  `Clone` and `PartialEq`.
 */
module Models {

  /** One to-do entry. Strings are sequences of characters. */
  datatype TodoItem = TodoItem(name: string, description: string, completed: bool)

  /** The placeholder name a freshly created entry carries. */
  const DefaultName: string := "Nova Tarefa"

  /** `TodoItem::default()`: placeholder name, empty description, not completed. */
  function Default(): (d: TodoItem)
    ensures d.name == DefaultName
    ensures d.description == ""
    ensures !d.completed
  {
    TodoItem(DefaultName, "", false)
  }

  /** The derived `Clone`: a field-by-field copy, equal to the original. */
  function Clone(item: TodoItem): (c: TodoItem)
    ensures c == item
  {
    TodoItem(item.name, item.description, item.completed)
  }

  /** The derived `PartialEq`: field-by-field comparison, which is exactly equality of values. */
  function Equals(a: TodoItem, b: TodoItem): (r: bool)
    ensures r <==> a == b
    ensures r <==> (a.name == b.name && a.description == b.description && a.completed == b.completed)
  {
    a.name == b.name && a.description == b.description && a.completed == b.completed
  }

  /** The entry with its completion flag inverted and its text untouched. */
  function Flipped(item: TodoItem): (r: TodoItem)
    ensures r.name == item.name && r.description == item.description
    ensures r.completed != item.completed
  {
    item.(completed := !item.completed)
  }

  lemma FlippedTwice(item: TodoItem)
    ensures Flipped(Flipped(item)) == item
  {
  }
}
