/** Row selection of the inventory table (hooks/useTableSelection.ts). The selection
    is a JavaScript `Set`, kept here as a sequence without duplicates in insertion
    order, because the first selected key is what a bulk edit opens on. */
module TableSelection {
  import Seqs

  /** The sequence without its element `x`, order kept. */
  function Without(s: seq<string>, x: string): (r: seq<string>)
    ensures forall y :: y in r <==> y in s && y != x
    ensures Seqs.NoDuplicates(s) ==> Seqs.NoDuplicates(r)
    ensures x !in s ==> r == s
  {
    if x !in s then Seqs.FilterAll(s, Other(x)); Seqs.Filter(s, Other(x))
    else if Seqs.NoDuplicates(s) then Seqs.FilterNoDuplicates(s, Other(x)); Seqs.Filter(s, Other(x))
    else Seqs.Filter(s, Other(x))
  }

  /** The test `y => y !== x`. */
  function Other(x: string): string -> bool
  {
    y => y != x
  }

  /** `handleSelectId`'s set: `id` removed when present, added at the end when not. */
  function Toggle(s: seq<string>, id: string): (r: seq<string>)
    ensures forall x :: x in r <==> (if x == id then id !in s else x in s)
    ensures Seqs.NoDuplicates(s) ==> Seqs.NoDuplicates(r)
  {
    if id in s then Without(s, id) else s + [id]
  }

  /** Toggling twice restores the set; for an id that was not selected, it restores
      the exact order too. */
  lemma ToggleTwice(s: seq<string>, id: string)
    ensures forall x :: x in Toggle(Toggle(s, id), id) <==> x in s
    ensures id !in s ==> Toggle(Toggle(s, id), id) == s
  {
    if id !in s {
      Seqs.FilterAll(s, Other(id));
      Seqs.FilterAppend(s, [id], Other(id));
      assert Seqs.Filter([id], Other(id)) == [];
    }
  }

  class TableSelectionState {
    var selectedIds: seq<string>

    ghost predicate Valid()
      reads this
    {
      Seqs.NoDuplicates(selectedIds)
    }

    constructor()
      ensures selectedIds == [] && Valid()
    {
      selectedIds := [];
    }

    /** `handleSelectId`: exactly `id` changes membership. */
    method SelectId(id: string)
      requires Valid()
      modifies this
      ensures Valid()
      ensures selectedIds == Toggle(old(selectedIds), id)
      ensures id in selectedIds <==> id !in old(selectedIds)
      ensures forall x :: x != id ==> (x in selectedIds <==> x in old(selectedIds))
    {
      if id in selectedIds {
        selectedIds := Without(selectedIds, id);
      } else {
        selectedIds := selectedIds + [id];
      }
    }

    /** `handleSelectAll`: every key of the shown rows, or none. `new Set(keys)`
        keeps each key at its first appearance, so the first row's key is the
        first selected one. */
    method SelectAll<T>(isSelected: bool, data: seq<T>, getKey: T -> string)
      modifies this
      ensures Valid()
      ensures isSelected ==> selectedIds == Seqs.Distinct(Seqs.Map(data, getKey))
      ensures isSelected ==> forall x :: x in selectedIds <==> exists i :: 0 <= i < |data| && getKey(data[i]) == x
      ensures isSelected && |data| > 0 ==> |selectedIds| > 0 && selectedIds[0] == getKey(data[0])
      ensures !isSelected ==> selectedIds == []
    {
      if isSelected {
        var allIds := Seqs.Map(data, getKey);
        if |data| > 0 {
          Seqs.DistinctHead(allIds);
        }
        selectedIds := Seqs.Distinct(allIds);
      } else {
        selectedIds := [];
      }
    }

    /** `clearSelection`. */
    method ClearSelection()
      modifies this
      ensures selectedIds == [] && Valid()
    {
      selectedIds := [];
    }
  }
}
