/**
 * One captured clipboard entry (`ClipboardItem`) and its kind
 * (`ClipboardItemType`), from Buffer/Models/ClipboardItem.swift.
 */
module ClipboardItems {
  import opened Wrappers

  /** Raw bytes (Foundation's `Data`). */
  type Bytes = seq<bv8>

  /** A `UUID`, modelled as a number drawn from a counter that never repeats. */
  type ItemId = nat

  /** `ClipboardItemType`; its `String` raw values are given by `RawValue`. */
  datatype ItemType = Text | Image | File | Url | RichText {

    /** The `String` raw value the enum is encoded with. */
    function RawValue(): (r: string)
      ensures 3 <= |r| && 'a' <= r[0] <= 'z'
    {
      match this
      case Text => "text"
      case Image => "image"
      case File => "file"
      case Url => "url"
      case RichText => "richText"
    }

    /** The SF Symbol name shown for the kind. */
    function Icon(): (r: string)
      ensures this == Text ==> r == "doc.text"
      ensures this == Image ==> r == "photo"
      ensures this == File ==> r == "doc"
      ensures this == Url ==> r == "link"
      ensures this == RichText ==> r == "doc.richtext"
    {
      match this
      case Text => "doc.text"
      case Image => "photo"
      case File => "doc"
      case Url => "link"
      case RichText => "doc.richtext"
    }
  }

  /** `ClipboardItemType(rawValue:)`: the kind whose raw value is `raw`, if any. */
  function ItemTypeFromRawValue(raw: string): (r: Option<ItemType>)
    ensures r.Some? ==> r.value.RawValue() == raw
  {
    if raw == "text" then Some(Text)
    else if raw == "image" then Some(Image)
    else if raw == "file" then Some(File)
    else if raw == "url" then Some(Url)
    else if raw == "richText" then Some(RichText)
    else None
  }

  /** Decoding the encoded raw value gives back the same kind. */
  lemma RawValueRoundTrip(t: ItemType)
    ensures ItemTypeFromRawValue(t.RawValue()) == Some(t)
  {
  }

  /** Raw values are pairwise distinct, so encoding loses nothing. */
  lemma RawValueInjective(t: ItemType, u: ItemType)
    ensures t.RawValue() == u.RawValue() ==> t == u
  {
    RawValueRoundTrip(t);
    RawValueRoundTrip(u);
  }

  /** Icon names are pairwise distinct as well. */
  lemma IconInjective(t: ItemType, u: ItemType)
    ensures t.Icon() == u.Icon() ==> t == u
  {
  }

  /**
   * `ClipboardItem`. `id`, `content`, `kind` and `timestamp` are `let`
   * constants in the source; `isPinned` and `data` are `var`s. The
   * timestamp is the clock reading taken at construction.
   */
  datatype Item = Item(
    id: ItemId,
    content: string,
    kind: ItemType,
    timestamp: int,
    isPinned: bool,
    data: Option<Bytes>)
  {
    /** The item with its pin flipped (`isPinned.toggle()`); nothing else changes. */
    function TogglePinned(): (r: Item)
      ensures r.isPinned == !isPinned
      ensures r.id == id && r.content == content && r.kind == kind
      ensures r.timestamp == timestamp && r.data == data
    {
      this.(isPinned := !isPinned)
    }
  }

  /**
   * `ClipboardItem(content:type:data:)`. The fresh `id` and the current time
   * are supplied by the caller (see `ClipboardManager.NewItem`).
   */
  function NewItem(id: ItemId, now: int, content: string, kind: ItemType, data: Option<Bytes>): (r: Item)
    ensures !r.isPinned
    ensures r.id == id && r.timestamp == now
    ensures r.content == content && r.kind == kind && r.data == data
  {
    Item(id, content, kind, now, false, data)
  }

  /** Toggling the pin twice gives back the same item. */
  lemma TogglePinnedTwice(it: Item)
    ensures it.TogglePinned().TogglePinned() == it
  {
  }
}
