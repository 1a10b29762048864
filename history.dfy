/**
 * The generation history (`HistoryManager` in public/js/history.js): a most-recent-first
 * list of at most 30 items kept under one key of the browser's local storage.
 *
 * The storage is the field `stored` of the class. JSON encoding is abstracted: the key is
 * absent, holds text that does not parse, or holds a list of items. Whether `setItem`
 * succeeds is decided by an oracle given the current contents of the key and the list
 * to write, so a full store, an unrelated failure and the effect of `removeItem` on free
 * space can all be expressed.
 */
module History {
  import opened Wrappers
  import opened JsText

  const MaxItems := 30

  /** A history entry; `imageBase64` and `videoUrl` are `null` when absent. */
  datatype Item = Item(
    id: string,
    prompt: Option<string>,
    imageBase64: Option<string>,
    videoUrl: Option<string>,
    kind: string,
    mediaType: string,
    createdAt: string)

  /** The fields `add` is given; any may be missing. */
  datatype ItemInput = ItemInput(
    id: Option<string>,
    prompt: Option<string>,
    imageBase64: Option<string>,
    videoUrl: Option<string>,
    kind: Option<string>,
    mediaType: Option<string>,
    createdAt: Option<string>)

  /** The contents of the storage key. */
  datatype Stored = Absent | Unparsable | Saved(items: seq<Item>)

  /** How one `setItem` ends: written, `QuotaExceededError`, or any other exception. */
  datatype SetOutcome = SetOk | QuotaExceeded | OtherError

  /** What `getAll` reads: the stored list, or `[]` when the key is absent or does not parse. */
  function Read(s: Stored): (items: seq<Item>)
    ensures s.Saved? ==> items == s.items
    ensures !s.Saved? ==> items == []
  {
    if s.Saved? then s.items else []
  }

  /** `null` unless the value is truthy, as `value || null` gives. */
  function OrNull(o: Option<string>): (r: Option<string>)
    ensures Truthy(o) ==> r == o
    ensures !Truthy(o) ==> r == None
  {
    if Truthy(o) then o else None
  }

  /**
   * The entry `add` builds: every falsy field is replaced by its default (`nowId` and
   * `nowIso` stand for the clock readings); the prompt is copied as it is.
   */
  function NewItem(input: ItemInput, nowId: string, nowIso: string): (item: Item)
    ensures item.id == (if Truthy(input.id) then input.id.value else nowId)
    ensures item.prompt == input.prompt
    ensures item.imageBase64 == (if Truthy(input.imageBase64) then input.imageBase64 else None)
    ensures item.videoUrl == (if Truthy(input.videoUrl) then input.videoUrl else None)
    ensures item.kind == (if Truthy(input.kind) then input.kind.value else "generate")
    ensures item.mediaType == (if Truthy(input.mediaType) then input.mediaType.value else "image")
    ensures item.createdAt == (if Truthy(input.createdAt) then input.createdAt.value else nowIso)
  {
    Item(Or(input.id, nowId), input.prompt, OrNull(input.imageBase64), OrNull(input.videoUrl),
         Or(input.kind, "generate"), Or(input.mediaType, "image"), Or(input.createdAt, nowIso))
  }

  /** `unshift` then `splice(30)`: the new item first, then the old list, cut to 30 items. */
  function Prepend(item: Item, history: seq<Item>): (r: seq<Item>)
    ensures |r| == if |history| + 1 > MaxItems then MaxItems else |history| + 1
  {
    var h := [item] + history;
    if |h| > MaxItems then h[..MaxItems] else h
  }

  /** The new item is first, the old items follow in order, and only the oldest are dropped. */
  lemma PrependOrder(item: Item, history: seq<Item>)
    ensures var r := Prepend(item, history);
      && r[0] == item
      && |r| <= MaxItems
      && (forall i :: 1 <= i < |r| ==> r[i] == history[i - 1])
      && (|history| < MaxItems ==> r[1..] == history)
  {
    var h := [item] + history;
    var r := Prepend(item, history);
    forall i | 1 <= i < |r|
      ensures r[i] == history[i - 1]
    {
      assert r[i] == h[i];
    }
    if |history| < MaxItems {
      assert r == h;
      assert h[1..] == history;
    }
  }

  /** `filter(item => item.id !== id)`. */
  function WithoutId(history: seq<Item>, id: string): (r: seq<Item>)
    ensures |r| <= |history|
    ensures forall x :: x in r <==> x in history && x.id != id
  {
    if history == [] then []
    else if history[0].id != id then [history[0]] + WithoutId(history[1..], id)
    else WithoutId(history[1..], id)
  }

  /**
   * The filter works item by item and keeps the order: filtering a concatenation is
   * concatenating the filtered parts, and a single item is kept exactly when its id differs.
   */
  lemma {:induction false} WithoutIdAppend(a: seq<Item>, b: seq<Item>, id: string)
    ensures WithoutId(a + b, id) == WithoutId(a, id) + WithoutId(b, id)
    ensures forall x :: WithoutId([x], id) == (if x.id != id then [x] else [])
  {
    forall x
      ensures WithoutId([x], id) == (if x.id != id then [x] else [])
    {
      assert [x][1..] == [];
    }
    if a == [] {
      assert a + b == b;
    } else {
      assert (a + b)[0] == a[0];
      assert (a + b)[1..] == a[1..] + b;
      WithoutIdAppend(a[1..], b, id);
    }
  }

  /** Items without the id are all kept, in order: the filter changes nothing when no item has the id. */
  lemma {:induction false} WithoutIdUnchanged(history: seq<Item>, id: string)
    requires forall i :: 0 <= i < |history| ==> history[i].id != id
    ensures WithoutId(history, id) == history
  {
    if history != [] {
      WithoutIdUnchanged(history[1..], id);
      assert [history[0]] + history[1..] == history;
    }
  }

  /** `find(item => item.id === id)`: the first item with the id. */
  function FindById(history: seq<Item>, id: string): (r: Option<Item>)
    ensures r.Some? ==> r.value in history && r.value.id == id
    ensures r.None? <==> forall i :: 0 <= i < |history| ==> history[i].id != id
  {
    if history == [] then None
    else if history[0].id == id then Some(history[0])
    else FindById(history[1..], id)
  }

  /** `FindById` returns the first item with the id, not merely some item. */
  lemma {:induction false} FindByIdFirst(history: seq<Item>, id: string, k: nat)
    requires k < |history| && history[k].id == id
    requires forall j :: 0 <= j < k ==> history[j].id != id
    ensures FindById(history, id) == Some(history[k])
  {
    if k > 0 {
      FindByIdFirst(history[1..], id, k - 1);
    }
  }

  /** The next list `save` tries after a quota error: `max(1, floor(n * 0.7))` items. */
  function ShrunkLength(n: nat): (m: nat)
    ensures 1 <= m
    ensures n >= 2 ==> m < n
    ensures n >= 1 ==> m <= n
  {
    var m := (n * 7) / 10;
    if m < 1 then 1 else m
  }

  /**
   * The storage after `save(items)`, as the loop computes it: each attempt either writes
   * the list, stops on a non-quota error, or on a quota error retries with a shorter
   * prefix; once that prefix has at most one item, the key is removed and one last
   * attempt is made.
   */
  function SaveOutcome(store: Stored, items: seq<Item>, setItem: (Stored, seq<Item>) -> SetOutcome): Stored
    decreases |items|
  {
    if items == [] then store
    else match setItem(store, items)
      case SetOk => Saved(items)
      case OtherError => store
      case QuotaExceeded =>
        var next := items[..ShrunkLength(|items|)];
        if |next| <= 1 then
          if setItem(Absent, next) == SetOk then Saved(next) else Absent
        else SaveOutcome(store, next, setItem)
  }

  /**
   * Whatever `save` leaves in storage is the old contents, nothing at all, or a non-empty
   * prefix of the list it was given; so the newest item survives any write.
   */
  lemma {:induction false} SaveStoresPrefix(store: Stored, items: seq<Item>, setItem: (Stored, seq<Item>) -> SetOutcome)
    ensures var after := SaveOutcome(store, items, setItem);
      || after == store
      || after == Absent
      || (after.Saved? && 1 <= |after.items| <= |items| && after.items == items[..|after.items|])
    decreases |items|
  {
    if items != [] && setItem(store, items) == QuotaExceeded {
      var next := items[..ShrunkLength(|items|)];
      if |next| > 1 {
        SaveStoresPrefix(store, next, setItem);
        var after := SaveOutcome(store, next, setItem);
        if after.Saved? && after != store {
          assert items[..|after.items|] == next[..|after.items|];
        }
      }
    }
  }

  /** A store that accepts the list keeps all of it; `save([])` never writes. */
  lemma SaveAcceptedOrEmpty(store: Stored, items: seq<Item>, setItem: (Stored, seq<Item>) -> SetOutcome)
    ensures items == [] ==> SaveOutcome(store, items, setItem) == store
    ensures items != [] && setItem(store, items) == SetOk ==> SaveOutcome(store, items, setItem) == Saved(items)
    ensures items != [] && setItem(store, items) == OtherError ==> SaveOutcome(store, items, setItem) == store
  {
  }

  /**
   * The last resort: when a quota error leaves a list of at most one item, the key is
   * removed first, so a failing final attempt leaves nothing stored at all.
   */
  lemma SaveFinalAttempt(store: Stored, items: seq<Item>, setItem: (Stored, seq<Item>) -> SetOutcome)
    requires 1 <= |items| <= 2 && setItem(store, items) == QuotaExceeded
    ensures setItem(Absent, items[..1]) == SetOk ==> SaveOutcome(store, items, setItem) == Saved(items[..1])
    ensures setItem(Absent, items[..1]) != SetOk ==> SaveOutcome(store, items, setItem) == Absent
  {
    assert ShrunkLength(|items|) == 1;
  }

  /**
   * A store that refuses every write for lack of space ends up empty, however long the
   * list: the quota loop shrinks it down to one item, removes the key and fails once more.
   */
  lemma {:induction false} SaveAlwaysFull(store: Stored, items: seq<Item>, setItem: (Stored, seq<Item>) -> SetOutcome)
    requires items != []
    requires forall s, l :: setItem(s, l) == QuotaExceeded
    ensures SaveOutcome(store, items, setItem) == Absent
    decreases |items|
  {
    var next := items[..ShrunkLength(|items|)];
    if |next| > 1 {
      SaveAlwaysFull(store, next, setItem);
    }
  }

  /** The history log and the storage key it reads and writes. */
  class HistoryManager {
    var stored: Stored

    constructor (initial: Stored)
      ensures stored == initial
    {
      stored := initial;
    }

    /** `getAll`. */
    function GetAll(): (items: seq<Item>)
      reads this
      ensures items == Read(stored)
    {
      Read(stored)
    }

    /** `getById`: the first stored item with the id. */
    function GetById(id: string): (r: Option<Item>)
      reads this
      ensures r.Some? ==> r.value in GetAll() && r.value.id == id
      ensures r.None? <==> forall i :: 0 <= i < |GetAll()| ==> GetAll()[i].id != id
    {
      FindById(GetAll(), id)
    }

    /** `clear`: removes the key, after which the history reads as empty. */
    method Clear()
      modifies this
      ensures stored == Absent && GetAll() == []
    {
      stored := Absent;
    }

    /**
     * `save`: write the list, shrinking it to `max(1, floor(0.7 n))` items after each
     * quota error; once it has at most one item, remove the key and try once more.
     */
    method Save(history: seq<Item>, setItem: (Stored, seq<Item>) -> SetOutcome)
      modifies this
      ensures stored == SaveOutcome(old(stored), history, setItem)
    {
      var itemsToSave := history;
      while |itemsToSave| > 0
        invariant SaveOutcome(old(stored), history, setItem) == SaveOutcome(stored, itemsToSave, setItem)
        invariant stored == old(stored)
        decreases |itemsToSave|
      {
        var outcome := setItem(stored, itemsToSave);
        if outcome == SetOk {
          stored := Saved(itemsToSave);
          return;
        }
        if outcome == QuotaExceeded {
          itemsToSave := itemsToSave[..ShrunkLength(|itemsToSave|)];
          if |itemsToSave| <= 1 {
            stored := Absent;
            if setItem(stored, itemsToSave) == SetOk {
              stored := Saved(itemsToSave);
            }
            return;
          }
        } else {
          return;
        }
      }
    }

    /**
     * `add`: build the entry, put it in front of the stored history, keep at most 30
     * items, save, and return the entry.
     */
    method Add(input: ItemInput, nowId: string, nowIso: string, setItem: (Stored, seq<Item>) -> SetOutcome)
      returns (newItem: Item)
      modifies this
      ensures newItem == NewItem(input, nowId, nowIso)
      ensures stored == SaveOutcome(old(stored), Prepend(newItem, old(GetAll())), setItem)
    {
      var history := GetAll();
      newItem := NewItem(input, nowId, nowIso);
      history := [newItem] + history;
      if |history| > MaxItems {
        history := history[..MaxItems];
      }
      Save(history, setItem);
    }

    /** `remove`: save the stored history without the items carrying the id, and return that list. */
    method Remove(id: string, setItem: (Stored, seq<Item>) -> SetOutcome) returns (filtered: seq<Item>)
      modifies this
      ensures filtered == WithoutId(old(GetAll()), id)
      ensures stored == SaveOutcome(old(stored), filtered, setItem)
    {
      var history := GetAll();
      filtered := WithoutId(history, id);
      Save(filtered, setItem);
    }
  }

  /**
   * Removing the only stored item saves an empty list, which `save` never writes: the
   * removed item is still in storage afterwards.
   */
  lemma RemoveLastItemIsStale(x: Item, setItem: (Stored, seq<Item>) -> SetOutcome)
    ensures WithoutId([x], x.id) == []
    ensures SaveOutcome(Saved([x]), WithoutId([x], x.id), setItem) == Saved([x])
    ensures Read(SaveOutcome(Saved([x]), WithoutId([x], x.id), setItem)) == [x]
  {
    assert WithoutId([x], x.id) == WithoutId([x][1..], x.id);
  }
}
