/** Editing the inventory (hooks/useInventoryActions.ts): opening a record, starting
    a new one, and saving, which stamps the `pendingOut` note, updates the cached
    inventory at once and hands the server commands to the command queue. */
module InventoryActions {
  import opened Js
  import opened Text
  import opened Calendar
  import opened InventoryTypes
  import Formatting
  import InventoryWorker
  import Seqs
  import opened Sync

  // ---------------------------------------------------------------- values

  /** `user?.username || fallback`. */
  function NameOr(user: Option<string>, fallback: string): (r: string)
    ensures user.Some? && user.value != "" ==> r == user.value
    ensures (user.None? || user.value == "") ==> r == fallback
  {
    if user.Some? && user.value != "" then user.value else fallback
  }

  /** The record `handleAddNew` opens: blank text, zero quantities, today's date in
      both date fields, the user as importer, and an IMPORT transaction. */
  function NewItem(user: Option<string>, now: DateTime): Item
    requires ValidDateTime(now)
  {
    var stamp := Formatting.FormatDateTime(now);
    var today := Split(stamp, ' ')[0];
    Item("", "", "", "", "", "", "", today, today,
         Fin(0.0), Fin(0.0), Fin(0.0), Fin(0.0),
         "", "", "", "", NameOr(user, ""), stamp, Str("IMPORT"))
  }

  /** The new record's dates are the date part of the current date-time, and its
      last update is the whole date-time. */
  lemma NewItemStamps(user: Option<string>, now: DateTime)
    requires ValidDateTime(now) && 0 <= now.date.year
    ensures NewItem(user, now).importDate == Formatting.DateText(now.date)
    ensures NewItem(user, now).productionDate == Formatting.DateText(now.date)
    ensures NewItem(user, now).lastUpdated == Formatting.DateText(now.date) + " " + Formatting.TimeText(now)
    ensures NewItem(user, now).sku == "" && NewItem(user, now).pendingOut == ""
    ensures NewItem(user, now).weight == Fin(0.0) && NewItem(user, now).quantity == Fin(0.0)
  {
    Formatting.FormatDateTimeParts(now);
  }

  /** The stamp appended to a pending-out note: the user (or "Unknown") and the
      current date-time as `formatDateTime` writes it. */
  function Suffix(user: Option<string>, now: DateTime): string
    requires ValidDateTime(now)
  {
    " - " + NameOr(user, "Unknown") + " " + Formatting.FormatDateTime(now)
  }

  /** The saved `pendingOut`: the trimmed note, stamped unless it is blank. */
  function StampedPendingOut(note: string, suffix: string): (r: string)
    ensures Trim(note) == "" ==> r == ""
    ensures Trim(note) != "" ==> r == Trim(note) + suffix
  {
    var trimmed := if note != "" then Trim(note) else "";
    if trimmed != "" then trimmed + suffix else ""
  }

  /** A stamped note starts with the note as typed, minus surrounding blanks, and
      restamping is not needed to read it back: its head is already trimmed. */
  lemma StampedNoteHead(note: string, user: Option<string>, now: DateTime)
    requires ValidDateTime(now) && Trim(note) != ""
    ensures var r := StampedPendingOut(note, Suffix(user, now));
            |r| > |Trim(note)| && r[..|Trim(note)|] == Trim(note) && Trim(r[..|Trim(note)|]) == Trim(note)
  {
    TrimTrim(note);
  }

  // ---------------------------------------------------------------- bulk save

  /** `a` and `b` are the same record except, perhaps, for `pendingOut`. */
  predicate SameButPendingOut(a: Item, b: Item)
  {
    a.(pendingOut := b.pendingOut) == b
  }

  function Restamp(bulkSkus: seq<string>, pendingOut: string): Item -> Item
  {
    (item: Item) => if item.sku in bulkSkus then item.(pendingOut := pendingOut) else item
  }

  /** The optimistic cache update of a bulk save: the selected records get the new
      note, everything else stays, and a missing cache becomes empty. */
  function BulkCache(cache: Option<seq<Item>>, bulkSkus: seq<string>, pendingOut: string): (r: seq<Item>)
    ensures cache.None? ==> r == []
    ensures cache.Some? ==> |r| == |cache.value|
    ensures cache.Some? ==> forall i :: 0 <= i < |r| ==>
              SameButPendingOut(cache.value[i], r[i])
              && (cache.value[i].sku in bulkSkus ==> r[i].pendingOut == pendingOut)
              && (cache.value[i].sku !in bulkSkus ==> r[i] == cache.value[i])
  {
    if cache.None? then [] else Seqs.Map(cache.value, Restamp(bulkSkus, pendingOut))
  }

  function InCache(cache: seq<Item>): string -> bool
  {
    k => InventoryWorker.Find(cache, k).Some?
  }

  function PayloadSku(c: QueueCommand): string
  {
    c.payload.sku
  }

  /** The commands of a bulk save, from position `k` of the selection on: one
      UPDATE per selected sku found in the cache, carrying the cached record with
      the new note. `newId` stands for `crypto.randomUUID`, `at` for `Date.now()`. */
  function BulkCommands(cache: seq<Item>, skus: seq<string>, pendingOut: string,
                        newId: nat -> string, at: int, k: nat): (r: seq<QueueCommand>)
    ensures forall c :: c in r ==>
              c.kind == Update && c.timestamp == at && c.payload.pendingOut == pendingOut
              && InventoryWorker.Find(cache, c.payload.sku).Some?
              && c.payload == InventoryWorker.Find(cache, c.payload.sku).value.(pendingOut := pendingOut)
    decreases |skus|
  {
    if |skus| == 0 then []
    else
      var found := InventoryWorker.Find(cache, skus[0]);
      (if found.Some? then [QueueCommand(newId(k), Update, found.value.(pendingOut := pendingOut), at)] else [])
      + BulkCommands(cache, skus[1..], pendingOut, newId, at, k + 1)
  }

  /** The commands follow the selection: their skus are the selected skus present
      in the cache, in selection order. */
  lemma {:induction false} BulkCommandsFollowSelection(cache: seq<Item>, skus: seq<string>, pendingOut: string,
                                                       newId: nat -> string, at: int, k: nat)
    ensures Seqs.Map(BulkCommands(cache, skus, pendingOut, newId, at, k), PayloadSku)
         == Seqs.Filter(skus, InCache(cache))
    decreases |skus|
  {
    if |skus| > 0 {
      BulkCommandsFollowSelection(cache, skus[1..], pendingOut, newId, at, k + 1);
      var found := InventoryWorker.Find(cache, skus[0]);
      var rest := BulkCommands(cache, skus[1..], pendingOut, newId, at, k + 1);
      if found.Some? {
        var c := QueueCommand(newId(k), Update, found.value.(pendingOut := pendingOut), at);
        assert BulkCommands(cache, skus, pendingOut, newId, at, k) == [c] + rest;
        assert Seqs.Map([c] + rest, PayloadSku)[1..] == Seqs.Map(rest, PayloadSku);
      } else {
        assert BulkCommands(cache, skus, pendingOut, newId, at, k) == rest;
      }
    }
  }

  lemma {:induction false} BulkCommandSelected(cache: seq<Item>, skus: seq<string>, pendingOut: string,
                                               newId: nat -> string, at: int, k: nat, c: QueueCommand)
    requires c in BulkCommands(cache, skus, pendingOut, newId, at, k)
    ensures c.payload.sku in skus
    decreases |skus|
  {
    var found := InventoryWorker.Find(cache, skus[0]);
    var rest := BulkCommands(cache, skus[1..], pendingOut, newId, at, k + 1);
    if c in rest {
      BulkCommandSelected(cache, skus[1..], pendingOut, newId, at, k + 1, c);
    }
  }

  /** Read against the cache before the save, each bulk command's payload is one of
      its selected records with only the note replaced: importer and last update
      are kept. */
  lemma BulkPayloadKeepsRecord(cache: Option<seq<Item>>, skus: seq<string>, pendingOut: string,
                               newId: nat -> string, at: int, c: QueueCommand)
    requires c in BulkCommands(BulkCache(cache, skus, pendingOut), skus, pendingOut, newId, at, 0)
    ensures cache.Some? && c.payload.sku in skus
    ensures exists j :: 0 <= j < |cache.value| && cache.value[j].sku == c.payload.sku
                        && c.payload == cache.value[j].(pendingOut := pendingOut)
  {
    var updated := BulkCache(cache, skus, pendingOut);
    var item := InventoryWorker.Find(updated, c.payload.sku).value;
    var j :| 0 <= j < |updated| && updated[j] == item;
    assert cache.Some?;
    BulkCommandSelected(updated, skus, pendingOut, newId, at, 0, c);
    assert cache.value[j].sku == item.sku;
  }

  // ---------------------------------------------------------------- single save

  /** The record a single save writes: the edited record with the stamped note; a
      new record also takes the user and the current date-time. */
  function SavedItem(edited: Item, pendingOut: string, isCreating: bool,
                     user: Option<string>, now: DateTime): (r: Item)
    requires ValidDateTime(now)
    ensures r.pendingOut == pendingOut && r.sku == edited.sku
    ensures isCreating ==> r.importer == NameOr(user, "Unknown") && r.lastUpdated == Formatting.FormatDateTime(now)
    ensures !isCreating ==> r == edited.(pendingOut := pendingOut)
  {
    edited.(pendingOut := pendingOut,
            importer := if isCreating then NameOr(user, "Unknown") else edited.importer,
            lastUpdated := if isCreating then Formatting.FormatDateTime(now) else edited.lastUpdated)
  }

  function ReplaceBySku(saved: Item): Item -> Item
  {
    (item: Item) => if item.sku == saved.sku then saved else item
  }

  /** The optimistic cache update of a single save. */
  function SingleCache(cache: Option<seq<Item>>, saved: Item, isCreating: bool): (r: seq<Item>)
    ensures cache.None? ==> r == [saved]
    ensures cache.Some? && isCreating ==> r == [saved] + cache.value
    ensures cache.Some? && !isCreating ==> |r| == |cache.value|
    ensures cache.Some? && !isCreating ==> forall i :: 0 <= i < |r| ==>
              r[i] == (if cache.value[i].sku == saved.sku then saved else cache.value[i])
  {
    if cache.None? then [saved]
    else if isCreating then [saved] + cache.value
    else Seqs.Map(cache.value, ReplaceBySku(saved))
  }

  /** After a single save the cache holds the saved record under its sku: first
      when created, and in place of every record with that sku when edited. */
  lemma SingleSaveIsFound(cache: Option<seq<Item>>, saved: Item, isCreating: bool)
    requires cache.None? || isCreating || saved.sku in InventoryWorker.Skus(cache.value)
    ensures InventoryWorker.Find(SingleCache(cache, saved, isCreating), saved.sku) == Some(saved)
  {
    var r := SingleCache(cache, saved, isCreating);
    if cache.None? || isCreating {
      assert r[0] == saved;
    } else {
      var keys := InventoryWorker.Skus(cache.value);
      var j :| 0 <= j < |keys| && keys[j] == saved.sku;
      assert r[j] == saved;
      var f := InventoryWorker.Find(r, saved.sku);
      var i :| 0 <= i < |r| && r[i] == f.value;
      if cache.value[i].sku != saved.sku {
        assert r[i] == cache.value[i];
      }
      assert f.value == saved;
    }
  }

  function KindOf(isCreating: bool): CommandType
  {
    if isCreating then Import else Update
  }

  // ---------------------------------------------------------------- the hook

  /** The note a save writes: the form's `pendingOut`, trimmed and stamped. */
  function SavedNote(updated: Item, user: Option<string>, now: DateTime): string
    requires ValidDateTime(now)
  {
    StampedPendingOut(updated.pendingOut, Suffix(user, now))
  }

  /** The record a single save writes. */
  function SavedRecord(updated: Item, isCreating: bool, user: Option<string>, now: DateTime): Item
    requires ValidDateTime(now)
  {
    SavedItem(updated, SavedNote(updated, user, now), isCreating, user, now)
  }

  function SingleNotice(isCreating: bool, sku: string): ActionNotice
  {
    if isCreating then Imported(sku) else PendingOutSaved(sku)
  }

  predicate IsBulk(bulkSkus: Option<seq<string>>)
  {
    bulkSkus.Some? && |bulkSkus.value| > 0
  }

  datatype ActionNotice = BulkSaved(count: nat) | Imported(sku: string) | PendingOutSaved(sku: string)

  class InventoryActionsState {
    var editingItem: Option<Item>
    var isCreating: bool
    /** The cached inventory of the query client; absent before the first load. */
    var cache: Option<seq<Item>>
    /** The commands handed to `addCommand`, oldest first. */
    var queued: seq<QueueCommand>
    var notices: seq<ActionNotice>

    /** A record is being created only while the form has a record. */
    ghost predicate Valid()
      reads this
    {
      isCreating ==> editingItem.Some?
    }

    constructor(cache: Option<seq<Item>>)
      ensures editingItem == None && !isCreating && this.cache == cache && queued == [] && notices == []
      ensures Valid()
    {
      editingItem := None;
      isCreating := false;
      this.cache := cache;
      queued := [];
      notices := [];
    }

    /** `handleRowDoubleClick`: edit an existing record. */
    method RowDoubleClick(item: Item)
      modifies this
      ensures editingItem == Some(item) && !isCreating && Valid()
      ensures cache == old(cache) && queued == old(queued) && notices == old(notices)
    {
      editingItem := Some(item);
      isCreating := false;
    }

    /** `handleAddNew`: open a blank record for creation. */
    method AddNew(user: Option<string>, now: DateTime)
      requires ValidDateTime(now)
      modifies this
      ensures editingItem == Some(NewItem(user, now)) && isCreating && Valid()
      ensures cache == old(cache) && queued == old(queued) && notices == old(notices)
    {
      editingItem := Some(NewItem(user, now));
      isCreating := true;
    }

    /** `handleCloseModal`. */
    method CloseModal()
      modifies this
      ensures editingItem == None && !isCreating && Valid()
      ensures cache == old(cache) && queued == old(queued) && notices == old(notices)
    {
      editingItem := None;
      isCreating := false;
    }

    /** `prepareBulkUpdate`: the form opens on the record of the first selected sku,
        when there is a selection and that record exists. */
    method PrepareBulkUpdate(selectedSkus: seq<string>, inventory: seq<Item>)
      requires Valid()
      modifies this
      ensures Valid() && isCreating == old(isCreating)
      ensures |selectedSkus| == 0 ==> editingItem == old(editingItem)
      ensures |selectedSkus| > 0 ==>
        editingItem == (if InventoryWorker.Find(inventory, selectedSkus[0]).Some?
                        then InventoryWorker.Find(inventory, selectedSkus[0]) else old(editingItem))
      ensures editingItem != old(editingItem) ==> editingItem.value in inventory && editingItem.value.sku == selectedSkus[0]
      ensures cache == old(cache) && queued == old(queued) && notices == old(notices)
    {
      if |selectedSkus| == 0 {
        return;
      }
      var firstSku := selectedSkus[0];
      var templateItem := InventoryWorker.Find(inventory, firstSku);
      if templateItem.Some? {
        editingItem := templateItem;
      }
    }

    /** The `for ... of` loop handing each command to `addCommand`, in order. */
    method QueueAll(commands: seq<QueueCommand>)
      modifies this
      ensures queued == old(queued) + commands
      ensures editingItem == old(editingItem) && isCreating == old(isCreating)
      ensures cache == old(cache) && notices == old(notices)
    {
      for i := 0 to |commands|
        invariant queued == old(queued) + commands[..i]
        invariant editingItem == old(editingItem) && isCreating == old(isCreating)
        invariant cache == old(cache) && notices == old(notices)
      {
        assert commands[..i + 1] == commands[..i] + [commands[i]];
        queued := queued + [commands[i]];
      }
      assert commands[..|commands|] == commands;
    }

    /** The bulk branch of `handleSaveItem`. */
    method SaveBulk(at: int, newId: nat -> string, bulkSkus: seq<string>, pendingOut: string)
      modifies this
      ensures cache == Some(BulkCache(old(cache), bulkSkus, pendingOut))
      ensures queued == old(queued) + BulkCommands(BulkCache(old(cache), bulkSkus, pendingOut), bulkSkus, pendingOut, newId, at, 0)
      ensures notices == old(notices) + [BulkSaved(|bulkSkus|)]
      ensures editingItem == old(editingItem) && isCreating == old(isCreating)
    {
      var current := BulkCache(cache, bulkSkus, pendingOut);
      cache := Some(current);
      var fullCommands := BulkCommands(current, bulkSkus, pendingOut, newId, at, 0);
      QueueAll(fullCommands);
      notices := notices + [BulkSaved(|bulkSkus|)];
    }

    /** The single-record branch of `handleSaveItem`. */
    method SaveSingle(at: int, newId: nat -> string, saved: Item)
      modifies this
      ensures cache == Some(SingleCache(old(cache), saved, old(isCreating)))
      ensures queued == old(queued) + [QueueCommand(newId(0), KindOf(old(isCreating)), saved, at)]
      ensures notices == old(notices) + [SingleNotice(old(isCreating), saved.sku)]
      ensures editingItem == old(editingItem) && isCreating == old(isCreating)
    {
      cache := Some(SingleCache(cache, saved, isCreating));
      queued := queued + [QueueCommand(newId(0), KindOf(isCreating), saved, at)];
      notices := notices + [SingleNotice(isCreating, saved.sku)];
    }

    /** `handleSaveItem`: stamp the note, update the cache, queue the commands one
        by one, and close the form. */
    method SaveItem(user: Option<string>, now: DateTime, at: int, newId: nat -> string,
                    updated: Item, bulkSkus: Option<seq<string>>)
      requires ValidDateTime(now)
      modifies this
      ensures editingItem == None && !isCreating && Valid()
      ensures IsBulk(bulkSkus) ==>
        cache == Some(BulkCache(old(cache), bulkSkus.value, SavedNote(updated, user, now)))
      ensures IsBulk(bulkSkus) ==>
        queued == old(queued) + BulkCommands(cache.value, bulkSkus.value, SavedNote(updated, user, now), newId, at, 0)
      ensures IsBulk(bulkSkus) ==> notices == old(notices) + [BulkSaved(|bulkSkus.value|)]
      ensures !IsBulk(bulkSkus) ==>
        cache == Some(SingleCache(old(cache), SavedRecord(updated, old(isCreating), user, now), old(isCreating)))
      ensures !IsBulk(bulkSkus) ==>
        queued == old(queued) + [QueueCommand(newId(0), KindOf(old(isCreating)), SavedRecord(updated, old(isCreating), user, now), at)]
      ensures !IsBulk(bulkSkus) ==> notices == old(notices) + [SingleNotice(old(isCreating), updated.sku)]
    {
      var finalPendingOut := SavedNote(updated, user, now);
      if IsBulk(bulkSkus) {
        SaveBulk(at, newId, bulkSkus.value, finalPendingOut);
      } else {
        var finalItem := SavedRecord(updated, isCreating, user, now);
        SaveSingle(at, newId, finalItem);
      }
      editingItem := None;
      isCreating := false;
    }
  }
}
