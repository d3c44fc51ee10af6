/** The selection toggle of client/src/components/PlaySelectParent.js and
    client/src/components/ProgPlayBin.js:
    `prev.includes(id) ? prev.filter(x => x !== id) : [...prev, id]`. */
module Selection {
  import opened Mongo

  function Other(id: string): string -> bool
  {
    (x: string) => x != id
  }

  /** Removes every copy of a selected id, appends an unselected one. */
  function Toggle(sel: seq<string>, id: string): (r: seq<string>)
  {
    if id in sel then Keep(sel, Other(id)) else sel + [id]
  }

  /** After the toggle, `id` is selected exactly when it was not, and every
      other id is as it was. */
  lemma ToggleMembership(sel: seq<string>, id: string)
    ensures forall x :: x in Toggle(sel, id) <==> if x == id then id !in sel else x in sel
  {
    KeepMembers(sel, Other(id));
  }

  /** Toggling an unselected id twice restores the selection. */
  lemma ToggleTwice(sel: seq<string>, id: string)
    requires id !in sel
    ensures Toggle(Toggle(sel, id), id) == sel
  {
    KeepAppend(sel, [id], Other(id));
    KeepAll(sel, Other(id));
    assert Keep([id], Other(id)) == [];
  }

  /** A selection built by toggles never lists an id twice. */
  lemma ToggleDistinct(sel: seq<string>, id: string)
    requires Distinct(sel)
    ensures Distinct(Toggle(sel, id))
  {
    if id in sel {
      KeepDistinct(sel, Other(id));
    }
  }
}
