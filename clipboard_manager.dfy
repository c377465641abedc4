/**
 * `ClipboardManager` (Buffer/Managers/ClipboardManager.swift): the history
 * list it publishes, the four operations that mutate it, and the
 * change-detection step `checkClipboard` that the 0.5 s timer runs.
 *
 * The general pasteboard is read through a `Snapshot` record. URL parsing
 * (`URL(string:)` with a non-nil `scheme`) is the `hasScheme` parameter,
 * UTF-8 decoding of rich-text bytes is the `decodeUtf8` parameter, and the
 * clock read by `Date()` is the `now` parameter. Every body that the source
 * wraps in `DispatchQueue.main.async` runs here synchronously, in order.
 */
module ClipboardManagement {
  import opened Wrappers
  import opened Seqs
  import opened ClipboardItems
  import opened History

  /** What one tick reads from the general pasteboard. */
  datatype Snapshot = Snapshot(
    changeCount: int,               // changeCount
    text: Option<string>,           // string(forType: .string)
    tiff: Option<Bytes>,            // data(forType: .tiff)
    fileUrls: Option<seq<string>>,  // pasteboardItems?.compactMap { $0.string(forType: .fileURL) }
    rtf: Option<Bytes>)             // data(forType: .rtf)

  /** The arguments of one `ClipboardItem(content:type:data:)` call made by `checkClipboard`. */
  datatype Capture = Capture(content: string, kind: ItemType, data: Option<Bytes>)

  /** A pasteboard string is a URL when it parses with a scheme, and text otherwise. */
  function Classify(s: string, hasScheme: string -> bool): (t: ItemType)
    ensures t == Url <==> hasScheme(s)
    ensures t == Text <==> !hasScheme(s)
  {
    if hasScheme(s) then Url else Text
  }

  function TextCaptures(snap: Snapshot, hasScheme: string -> bool): seq<Capture> {
    if snap.text.Some? then [Capture(snap.text.value, Classify(snap.text.value, hasScheme), None)] else []
  }

  function ImageCaptures(snap: Snapshot): seq<Capture> {
    if snap.tiff.Some? then [Capture("Image", Image, snap.tiff)] else []
  }

  function FileCaptures(snap: Snapshot): (r: seq<Capture>)
    ensures |r| == if snap.fileUrls.Some? then |snap.fileUrls.value| else 0
  {
    if snap.fileUrls.Some? then
      seq(|snap.fileUrls.value|, i requires 0 <= i < |snap.fileUrls.value| => Capture(snap.fileUrls.value[i], File, None))
    else []
  }

  function RtfCaptures(snap: Snapshot, decodeUtf8: Bytes -> Option<string>): seq<Capture> {
    if snap.rtf.Some? && decodeUtf8(snap.rtf.value).Some? then
      [Capture(decodeUtf8(snap.rtf.value).value, RichText, None)]
    else []
  }

  /**
   * The items one tick adds once it is past both guards, in the order it
   * adds them: the string, then the TIFF image, then each file URL, then the
   * rich text if its bytes decode as UTF-8.
   */
  function Captures(snap: Snapshot, hasScheme: string -> bool, decodeUtf8: Bytes -> Option<string>): (r: seq<Capture>)
    ensures |r| == (if snap.text.Some? then 1 else 0) + (if snap.tiff.Some? then 1 else 0)
      + (if snap.fileUrls.Some? then |snap.fileUrls.value| else 0)
      + (if snap.rtf.Some? && decodeUtf8(snap.rtf.value).Some? then 1 else 0)
    ensures snap.text.Some? ==> r[0].content == snap.text.value && r[0].data == None
  {
    TextCaptures(snap, hasScheme) + ImageCaptures(snap) + FileCaptures(snap) + RtfCaptures(snap, decodeUtf8)
  }

  lemma FileCapturesShape(snap: Snapshot)
    ensures forall c :: c in FileCaptures(snap) ==>
      c.kind == File && c.data == None && snap.fileUrls.Some? && c.content in snap.fileUrls.value
  {
    var f := FileCaptures(snap);
    forall c | c in f
      ensures c.kind == File && c.data == None && snap.fileUrls.Some? && c.content in snap.fileUrls.value
    {
      var i :| 0 <= i < |f| && f[i] == c;
    }
  }

  /** A capture comes from exactly one of the four branches. */
  lemma CaptureSource(snap: Snapshot, hasScheme: string -> bool, decodeUtf8: Bytes -> Option<string>, c: Capture)
    requires c in Captures(snap, hasScheme, decodeUtf8)
    ensures c in TextCaptures(snap, hasScheme) || c in ImageCaptures(snap) || c in FileCaptures(snap)
      || c in RtfCaptures(snap, decodeUtf8)
  {
  }

  /**
   * The string, when there is one, is captured first, as a URL or as text;
   * no other capture is a URL or text.
   */
  lemma CapturesStringFirst(snap: Snapshot, hasScheme: string -> bool, decodeUtf8: Bytes -> Option<string>, c: Capture)
    requires c in Captures(snap, hasScheme, decodeUtf8)
    ensures snap.text.Some? ==> Captures(snap, hasScheme, decodeUtf8)[0] == Capture(snap.text.value, Classify(snap.text.value, hasScheme), None)
    ensures c.kind == Text || c.kind == Url ==> snap.text.Some? && c == Captures(snap, hasScheme, decodeUtf8)[0]
  {
    CaptureSource(snap, hasScheme, decodeUtf8, c);
    FileCapturesShape(snap);
  }

  /**
   * The image capture is labelled "Image" and keeps the TIFF bytes; no other
   * capture keeps any bytes, the rich-text bytes included. File captures are
   * the file URLs.
   */
  lemma CapturesData(snap: Snapshot, hasScheme: string -> bool, decodeUtf8: Bytes -> Option<string>, c: Capture)
    requires c in Captures(snap, hasScheme, decodeUtf8)
    ensures c.kind == Image ==> c.content == "Image" && c.data == snap.tiff
    ensures c.kind != Image ==> c.data == None
    ensures c.kind == File ==> snap.fileUrls.Some? && c.content in snap.fileUrls.value
  {
    CaptureSource(snap, hasScheme, decodeUtf8, c);
    FileCapturesShape(snap);
  }

  /** The item `addItem` receives for capture `c`, created with id `id` at time `now`. */
  function Fresh(c: Capture, id: ItemId, now: int): (r: Item)
    ensures r.id == id && r.content == c.content && r.kind == c.kind && r.data == c.data && !r.isPinned
  {
    NewItem(id, now, c.content, c.kind, c.data)
  }

  /** A list operation that takes one new item: `addItem` is the one replayed here. */
  type Step = (seq<Item>, Item) -> seq<Item>

  /**
   * `add` applied to a fresh item for each of the first `n` captures of `cs`
   * in turn, the items taking consecutive ids from `firstId`.
   */
  function Replay(s: seq<Item>, cs: seq<Capture>, n: nat, firstId: ItemId, now: int, add: Step): seq<Item>
    requires n <= |cs|
  {
    if n == 0 then s else add(Replay(s, cs, n - 1, firstId, now, add), Fresh(cs[n - 1], firstId + n - 1, now))
  }

  /** `addItem` applied to a fresh item for each of `cs` in turn. */
  function AddCaptures(s: seq<Item>, cs: seq<Capture>, firstId: ItemId, now: int): seq<Item> {
    Replay(s, cs, |cs|, firstId, now, AddItemSpec)
  }

  /** One more capture replayed is one more `add`. */
  lemma ReplayNext(s: seq<Item>, cs: seq<Capture>, i: nat, firstId: ItemId, now: int, add: Step)
    requires i < |cs|
    ensures Replay(s, cs, i + 1, firstId, now, add) == add(Replay(s, cs, i, firstId, now, add), Fresh(cs[i], firstId + i, now))
  {
  }

  /** Replaying a prefix only looks at the captures in that prefix. */
  lemma {:induction false} ReplayPrefix(s: seq<Item>, a: seq<Capture>, b: seq<Capture>, n: nat, firstId: ItemId, now: int, add: Step)
    requires n <= |a| && n <= |b| && a[..n] == b[..n]
    ensures Replay(s, a, n, firstId, now, add) == Replay(s, b, n, firstId, now, add)
  {
    if n > 0 {
      assert a[..n - 1] == b[..n - 1] && a[n - 1] == b[n - 1] by {
        assert a[..n - 1] == a[..n][..n - 1] && b[..n - 1] == b[..n][..n - 1];
        assert a[n - 1] == a[..n][n - 1] && b[n - 1] == b[..n][n - 1];
      }
      ReplayPrefix(s, a, b, n - 1, firstId, now, add);
    }
  }

  lemma {:induction false} ReplayAppendPrefix(s: seq<Item>, a: seq<Capture>, b: seq<Capture>, k: nat, firstId: ItemId, now: int, add: Step)
    requires k <= |b|
    ensures Replay(Replay(s, a, |a|, firstId, now, add), b, k, firstId + |a|, now, add) == Replay(s, a + b, |a| + k, firstId, now, add)
  {
    if k == 0 {
      ReplayPrefix(s, a, a + b, |a|, firstId, now, add);
    } else {
      ReplayAppendPrefix(s, a, b, k - 1, firstId, now, add);
      assert (a + b)[|a| + k - 1] == b[k - 1];
    }
  }

  /** Replaying `a` and then `b` is replaying `a + b`, the ids running on. */
  lemma ReplayAppend(s: seq<Item>, a: seq<Capture>, b: seq<Capture>, sa: seq<Item>, sab: seq<Item>, firstId: ItemId, now: int, add: Step)
    requires sa == Replay(s, a, |a|, firstId, now, add)
    requires sab == Replay(sa, b, |b|, firstId + |a|, now, add)
    ensures sab == Replay(s, a + b, |a + b|, firstId, now, add)
  {
    ReplayAppendPrefix(s, a, b, |b|, firstId, now, add);
  }

  /** `addItem` over `a` and then over `b` is `addItem` over `a + b`, the ids running on. */
  lemma AddCapturesAppend(s: seq<Item>, a: seq<Capture>, b: seq<Capture>, sa: seq<Item>, sab: seq<Item>, firstId: ItemId, midId: ItemId, now: int)
    requires midId == firstId + |a|
    requires sa == AddCaptures(s, a, firstId, now)
    requires sab == AddCaptures(sa, b, midId, now)
    ensures sab == AddCaptures(s, a + b, firstId, now)
  {
    ReplayAppend(s, a, b, sa, sab, firstId, now, AddItemSpec);
  }

  /** Replayed captures are all unpinned, so the pinned entries come through unchanged, in order. */
  lemma {:induction false} ReplayKeepsPinned(s: seq<Item>, cs: seq<Capture>, n: nat, firstId: ItemId, now: int)
    requires n <= |cs|
    ensures Pinned(Replay(s, cs, n, firstId, now, AddItemSpec)) == Pinned(s)
  {
    if n > 0 {
      ReplayKeepsPinned(s, cs, n - 1, firstId, now);
      AddItemKeepsPinned(Replay(s, cs, n - 1, firstId, now, AddItemSpec), Fresh(cs[n - 1], firstId + n - 1, now));
    }
  }

  /** A tick never pins, unpins, drops or reorders a pinned entry. */
  lemma TickKeepsPinned(s: seq<Item>, cs: seq<Capture>, firstId: ItemId, now: int)
    ensures Pinned(AddCaptures(s, cs, firstId, now)) == Pinned(s)
  {
    ReplayKeepsPinned(s, cs, |cs|, firstId, now);
  }

  /** The list after a tick that adds anything is `addItem` of the last capture's item. */
  lemma TickLastStep(s: seq<Item>, cs: seq<Capture>, firstId: ItemId, now: int) returns (before: seq<Item>, x: Item)
    requires cs != []
    ensures x == Fresh(cs[|cs| - 1], firstId + |cs| - 1, now)
    ensures AddCaptures(s, cs, firstId, now) == AddItemSpec(before, x)
  {
    before := Replay(s, cs, |cs| - 1, firstId, now, AddItemSpec);
    x := Fresh(cs[|cs| - 1], firstId + |cs| - 1, now);
    ReplayNext(s, cs, |cs| - 1, firstId, now, AddItemSpec);
  }

  /** A tick that adds anything ends with at most 25 unpinned entries. */
  lemma TickBound(s: seq<Item>, cs: seq<Capture>, firstId: ItemId, now: int)
    requires cs != []
    ensures |Unpinned(AddCaptures(s, cs, firstId, now))| <= MaxUnpinned
  {
    var before, x := TickLastStep(s, cs, firstId, now);
    AddItemBound(before, x);
  }

  /**
   * After a tick that adds anything, the last capture's item is the first
   * unpinned entry, and no other unpinned entry has its content.
   */
  lemma TickNewestFirst(s: seq<Item>, cs: seq<Capture>, firstId: ItemId, now: int)
    requires cs != []
    ensures Unpinned(AddCaptures(s, cs, firstId, now)) != []
    ensures Unpinned(AddCaptures(s, cs, firstId, now))[0] == Fresh(cs[|cs| - 1], firstId + |cs| - 1, now)
    ensures forall y :: y in AddCaptures(s, cs, firstId, now) && !y.isPinned && y.content == cs[|cs| - 1].content ==>
      y == Fresh(cs[|cs| - 1], firstId + |cs| - 1, now)
  {
    var before, x := TickLastStep(s, cs, firstId, now);
    AddItemCollapsesDuplicates(before, x);
  }

  class ClipboardManager {
    /** The published history, newest first. */
    var items: seq<Item>
    var lastChangeCount: int
    var lastContent: Option<string>
    /** The identifier supply standing in for `UUID()`: every id below it has been handed out. */
    var nextId: ItemId

    /** Ids in the history are distinct and were all handed out by the supply. */
    ghost predicate Valid()
      reads this
    {
      DistinctIds(items) && IdsBelow(items, nextId)
    }

    /** A manager with no history and no clipboard seen yet. */
    constructor ()
      ensures items == [] && lastChangeCount == 0 && lastContent == None
      ensures Valid()
    {
      items := [];
      lastChangeCount := 0;
      lastContent := None;
      nextId := 0;
    }

    /** `ClipboardItem(content:type:data:)` with a fresh id and the current time. */
    method MakeItem(content: string, kind: ItemType, data: Option<Bytes>, now: int) returns (item: Item)
      modifies this`nextId
      ensures item == NewItem(old(nextId), now, content, kind, data)
      ensures nextId == old(nextId) + 1
    {
      item := NewItem(nextId, now, content, kind, data);
      nextId := nextId + 1;
    }

    /** `addItem`: collapse unpinned duplicates, prepend, cap the unpinned entries at 25. */
    method AddItem(item: Item)
      modifies this`items
      ensures items == AddItemSpec(old(items), item)
      ensures |Unpinned(items)| <= MaxUnpinned
      ensures forall y :: y in old(items) && y.isPinned ==> y in items
      ensures !item.isPinned ==> Pinned(items) == Pinned(old(items)) && Unpinned(items) != [] && Unpinned(items)[0] == item
      ensures !item.isPinned ==> forall y :: y in items && !y.isPinned && y.content == item.content ==> y == item
      ensures old(Valid()) && item.id < nextId && (forall i :: 0 <= i < |old(items)| ==> old(items)[i].id != item.id) ==> Valid()
    {
      ghost var before := items;
      items := Collapse(items, item);
      items := [item] + items;
      var pinnedItems := Pinned(items);
      var unpinnedItems := Unpinned(items);
      if |unpinnedItems| > MaxUnpinned {
        items := pinnedItems + unpinnedItems[..MaxUnpinned];
      }
      AddItemBound(before, item);
      AddItemNeverDropsPinned(before, item);
      if !item.isPinned {
        AddItemKeepsPinned(before, item);
        AddItemCollapsesDuplicates(before, item);
      }
      if DistinctIds(before) && IdsBelow(before, nextId) && item.id < nextId && (forall i :: 0 <= i < |before| ==> before[i].id != item.id) {
        AddItemKeepsDistinctIds(before, item);
        AddItemKeepsIdsBelow(before, item, nextId);
      }
    }

    /** `removeItem`: delete every entry with the item's id. */
    method RemoveItem(item: Item)
      modifies this`items
      ensures items == RemoveItemSpec(old(items), item.id)
      ensures forall y :: y in items <==> y in old(items) && y.id != item.id
      ensures old(Valid()) ==> Valid()
    {
      RemoveItemKeepsIds(items, item.id, nextId);
      FilterMembers(items, HasOtherId(item.id));
      items := RemoveItemSpec(items, item.id);
    }

    /** `togglePin`: flip the pin of the first entry with the item's id. */
    method TogglePin(item: Item)
      modifies this`items
      ensures items == TogglePinSpec(old(items), item.id)
      ensures |items| == |old(items)|
      ensures old(Valid()) ==> Valid()
    {
      TogglePinKeepsIds(items, item.id, nextId);
      match FirstIndexOf(items, item.id)
      case Some(index) =>
        items := items[index := items[index].TogglePinned()];
      case None =>
    }

    /** `clearAll`: remove the unpinned entries; pinned ones stay, in order. */
    method ClearAll()
      modifies this`items
      ensures items == ClearAllSpec(old(items))
      ensures forall y :: y in items <==> y in old(items) && y.isPinned
      ensures old(Valid()) ==> Valid()
    {
      ClearAllKeepsIds(items, nextId);
      FilterMembers(items, IsPinned);
      items := Filter(items, IsPinned);
    }

    /** `addItem(ClipboardItem(...))` for one capture. */
    method AddCapture(c: Capture, now: int)
      modifies this`items, this`nextId
      ensures items == AddItemSpec(old(items), Fresh(c, old(nextId), now))
      ensures nextId == old(nextId) + 1
      ensures old(Valid()) ==> Valid()
    {
      var item := MakeItem(c.content, c.kind, c.data, now);
      AddItem(item);
    }

    /** `addItem` for the string on the pasteboard, if any, as a URL or as text. */
    method AddString(snap: Snapshot, hasScheme: string -> bool, now: int)
      modifies this`items, this`nextId
      ensures items == AddCaptures(old(items), TextCaptures(snap, hasScheme), old(nextId), now)
      ensures nextId == old(nextId) + |TextCaptures(snap, hasScheme)|
      ensures old(Valid()) ==> Valid()
    {
      if snap.text.Some? {
        var str := snap.text.value;
        ReplayNext(items, TextCaptures(snap, hasScheme), 0, nextId, now, AddItemSpec);
        AddCapture(Capture(str, Classify(str, hasScheme), None), now);
      }
    }

    /** `addItem` for the TIFF image, if any, labelled "Image" and keeping its bytes. */
    method AddImage(snap: Snapshot, now: int)
      modifies this`items, this`nextId
      ensures items == AddCaptures(old(items), ImageCaptures(snap), old(nextId), now)
      ensures nextId == old(nextId) + |ImageCaptures(snap)|
      ensures old(Valid()) ==> Valid()
    {
      if snap.tiff.Some? {
        ReplayNext(items, ImageCaptures(snap), 0, nextId, now, AddItemSpec);
        AddCapture(Capture("Image", Image, snap.tiff), now);
      }
    }

    /** `addItem` for capture `c`, as step `k` of replaying `all` from `start`. */
    method AddCaptureAt(c: Capture, now: int, ghost all: seq<Capture>, ghost k: nat, ghost start: seq<Item>, ghost firstId: ItemId)
      requires k < |all| && all[k] == c
      requires items == Replay(start, all, k, firstId, now, AddItemSpec) && nextId == firstId + k
      modifies this`items, this`nextId
      ensures items == Replay(start, all, k + 1, firstId, now, AddItemSpec) && nextId == firstId + k + 1
      ensures old(Valid()) ==> Valid()
    {
      ReplayNext(start, all, k, firstId, now, AddItemSpec);
      AddCapture(c, now);
    }

    /** `addItem` for each file URL, in pasteboard order. */
    method AddFiles(snap: Snapshot, now: int)
      modifies this`items, this`nextId
      ensures items == AddCaptures(old(items), FileCaptures(snap), old(nextId), now)
      ensures nextId == old(nextId) + |FileCaptures(snap)|
      ensures old(Valid()) ==> Valid()
    {
      if snap.fileUrls.Some? {
        var files := snap.fileUrls.value;
        ghost var fileCaps := FileCaptures(snap);
        ghost var items0, id0, valid0 := items, nextId, Valid();
        for i := 0 to |files|
          invariant items == Replay(items0, fileCaps, i, id0, now, AddItemSpec)
          invariant nextId == id0 + i
          invariant valid0 ==> Valid()
        {
          AddCaptureAt(Capture(files[i], File, None), now, fileCaps, i, items0, id0);
        }
      }
    }

    /** `addItem` for the rich text, if its bytes decode as UTF-8; the bytes are not kept. */
    method AddRichText(snap: Snapshot, decodeUtf8: Bytes -> Option<string>, now: int)
      modifies this`items, this`nextId
      ensures items == AddCaptures(old(items), RtfCaptures(snap, decodeUtf8), old(nextId), now)
      ensures nextId == old(nextId) + |RtfCaptures(snap, decodeUtf8)|
      ensures old(Valid()) ==> Valid()
    {
      if snap.rtf.Some? {
        var decoded := decodeUtf8(snap.rtf.value);
        if decoded.Some? {
          ReplayNext(items, RtfCaptures(snap, decodeUtf8), 0, nextId, now, AddItemSpec);
          AddCapture(Capture(decoded.value, RichText, None), now);
        }
      }
    }

    /** The adding half of a tick that got past both guards: string, image, files, rich text. */
    method AddSnapshot(snap: Snapshot, hasScheme: string -> bool, decodeUtf8: Bytes -> Option<string>, now: int)
      modifies this`items, this`nextId
      ensures items == AddCaptures(old(items), Captures(snap, hasScheme, decodeUtf8), old(nextId), now)
      ensures nextId == old(nextId) + |Captures(snap, hasScheme, decodeUtf8)|
      ensures old(Valid()) ==> Valid()
    {
      ghost var s0, id0 := items, nextId;
      ghost var t, m, f, x := TextCaptures(snap, hasScheme), ImageCaptures(snap), FileCaptures(snap), RtfCaptures(snap, decodeUtf8);
      ghost var tm, tmf := t + m, t + m + f;
      AddString(snap, hasScheme, now);
      ghost var s1, id1 := items, nextId;
      AddImage(snap, now);
      AddCapturesAppend(s0, t, m, s1, items, id0, id1, now);
      ghost var s2, id2 := items, nextId;
      AddFiles(snap, now);
      AddCapturesAppend(s0, tm, f, s2, items, id0, id2, now);
      ghost var s3, id3 := items, nextId;
      AddRichText(snap, decodeUtf8, now);
      AddCapturesAppend(s0, tmf, x, s3, items, id0, id3, now);
    }

    /**
     * One timer tick. An unchanged change count does nothing; otherwise the
     * count is recorded. A string equal to the last one seen ends the tick
     * there, before the image, file and rich-text checks. Otherwise every
     * capture of the snapshot is added, in order, with fresh ids.
     */
    method CheckClipboard(snap: Snapshot, hasScheme: string -> bool, decodeUtf8: Bytes -> Option<string>, now: int)
      modifies this
      ensures snap.changeCount == old(lastChangeCount) ==>
        items == old(items) && lastChangeCount == old(lastChangeCount) &&
        lastContent == old(lastContent) && nextId == old(nextId)
      ensures snap.changeCount != old(lastChangeCount) ==> lastChangeCount == snap.changeCount
      ensures snap.changeCount != old(lastChangeCount) && snap.text.Some? && snap.text == old(lastContent) ==>
        items == old(items) && lastContent == old(lastContent) && nextId == old(nextId)
      ensures snap.changeCount != old(lastChangeCount) && !(snap.text.Some? && snap.text == old(lastContent)) ==>
        lastContent == (if snap.text.Some? then snap.text else old(lastContent)) &&
        items == AddCaptures(old(items), Captures(snap, hasScheme, decodeUtf8), old(nextId), now) &&
        nextId == old(nextId) + |Captures(snap, hasScheme, decodeUtf8)|
      ensures old(Valid()) ==> Valid()
    {
      if snap.changeCount == lastChangeCount {
        return;
      }
      lastChangeCount := snap.changeCount;
      if snap.text.Some? {
        if snap.text == lastContent {
          return;
        }
        lastContent := snap.text;
      }
      AddSnapshot(snap, hasScheme, decodeUtf8, now);
    }
  }
}
