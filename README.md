# Buffer clipboard history — a Dafny model

Buffer is a macOS menu-bar clipboard manager written in Swift. Every half
second it polls the general pasteboard. Each new string, TIFF image, file URL
or rich-text payload goes into a history of `ClipboardItem`s. That history
keeps at most 25 unpinned entries, and pinned entries are never evicted. A
SwiftUI view searches, filters and groups the history by date section. A
global hot key (Cmd+Shift+V by default, or a recorded custom shortcut)
brings the window up. Strings shown to the user come from an English and a
Polish table.

This project models the logic of that app, file by file:

| file | module | models |
|---|---|---|
| `wrappers.dfy` | `Wrappers` | `Option` |
| `seqs.dfy` | `Seqs` | `Filter` (Swift's `filter`/`removeAll`), subsequences, prefixes |
| `clipboard_item.dfy` | `ClipboardItems` | `ClipboardItem`, `ClipboardItemType` and its raw values and icons |
| `history.dfy` | `History` | the history list operations as functions, with their properties |
| `clipboard_manager.dfy` | `ClipboardManagement` | the `ClipboardManager` class and the `checkClipboard` tick |
| `name_helper.dfy` | `NameHelper` | `ClipboardItemNameHelper` |
| `language_manager.dfy` | `Localization` | `AppLanguage` and `localized(_:)` |
| `clipboard_view.dfy` | `ClipboardView` | `filteredItems`, `groupedItems`, `emptyStateMessage`, `ClipboardFilter` |
| `shortcut_manager.dfy` | `Shortcuts` | `SavedShortcut.displayString` and the `ShortcutManager` class |
| `hotkey_manager.dfy` | `HotKeys` | `String.asUInt32` and the NSEvent-to-Carbon modifier translation |

## Modelling choices

**The history and the tick.**
- `ClipboardManager` is a class. Its fields are `items`, `lastChangeCount` and `lastContent`.
- Each mutating method is proved equal to a function in `History` (`AddItemSpec`, `RemoveItemSpec`, `TogglePinSpec`, `ClearAllSpec`). The properties of the operations are lemmas about those functions.
- `UUID()` is modelled by a counter, `nextId`. The invariant `Valid` says that ids in the history are distinct and below the counter. Every method preserves it.
- Everything the source wraps in `DispatchQueue.main.async` runs synchronously, in call order.

**The pasteboard and library calls.** These become parameters:
- One poll of the pasteboard is a `Snapshot` record.
- `URL(string:)?.scheme != nil` is `hasScheme`.
- `String(data:encoding: .utf8)` is `decodeUtf8`.
- `Date()` is `now`.
- `NSImage` decoding is `decode`.
- `URL(string:)` with its `host`, `lastPathComponent` and `pathExtension` is `parse`.
- `lowercased()` and `uppercased()` are `lower` and `upper`.
- `DateSection`, `dateSection` and `DateSection.allCases` are a type parameter `S`, a function `sectionOf` and a sequence `allCases`. Their definitions are not part of this model.

**Bit-level code.** Modifier flags are `bv64`, with the NSEvent constants:
- shift `1 << 17`, control `1 << 18`, option `1 << 19`, command `1 << 20`;
- device-independent mask `0xFFFF_0000`.

The Carbon bits are `cmdKey` 0x100, `shiftKey` 0x200, `optionKey` 0x800 and `controlKey` 0x1000. `String.utf8` is written out as the RFC 3629 UTF-8 encoding of Unicode scalars, with bytes as integers below 0x100. A `UInt32` is modelled as its four bytes, most significant first. `(w << 8) | UInt32(b)` moves the low three bytes up and puts `b` last. `HotKeys.ShiftIn` proves that this is the arithmetic (value · 256 + b) mod 2^32 that the method's loop performs.

**Trimming.** `trimmingCharacters(in: .whitespacesAndNewlines)` removes characters of the Unicode `White_Space` property from both ends. The model lists those characters explicitly.

**The tests disagree with the manager; the model follows the manager.**
- BufferTests/BufferTests.swift:138-152 expects that adding an unpinned copy of a pinned entry's content leaves one entry. `addItem` only collapses unpinned duplicates, so the list gets two entries: the new item first, then the pinned one. `History.PinnedDuplicateAddsEntry` states what the code does.
- BufferTests/BufferTests.swift:107-124 calls `clearUnpinned()`, which `ClipboardManager` does not define. `clearAll` is the operation that removes only unpinned entries (`History.ClearAllKeepsPinned`).

## Model

| member | source | states |
|---|---|---|
| ClipboardItems.ItemType.Icon | Buffer/Models/ClipboardItem.swift:28-36 | text→"doc.text", image→"photo", file→"doc", url→"link", richText→"doc.richtext" |
| ClipboardItems.ItemType.RawValue | Buffer/Models/ClipboardItem.swift:21-26 | the raw value is the case name, at least three letters, starting lower-case (the enum's implicit `String` raw values) |
| ClipboardItems.ItemTypeFromRawValue | Buffer/Models/ClipboardItem.swift:21-26 | decoding a raw value yields only a case whose raw value it is |
| ClipboardItems.RawValueRoundTrip | Buffer/Models/ClipboardItem.swift:21-26 | decoding a case's raw value gives back that case |
| ClipboardItems.RawValueInjective | Buffer/Models/ClipboardItem.swift:21-26 | the five raw values are pairwise distinct |
| ClipboardItems.IconInjective | Buffer/Models/ClipboardItem.swift:28-36 | no two item types share an icon |
| ClipboardItems.NewItem | Buffer/Models/ClipboardItem.swift:11-18 | a new item is unpinned and stores the given id, time, content, type and data |
| ClipboardItems.Item.TogglePinned | Buffer/Models/ClipboardItem.swift:4-9 | flipping the pin changes `isPinned` only; id, content, type, timestamp and data stay |
| ClipboardItems.TogglePinnedTwice | Buffer/Managers/ClipboardManager.swift:117 | toggling twice restores the item |
| History.FirstIndexOf | Buffer/Managers/ClipboardManager.swift:116 | `firstIndex(where:)`: None iff no entry has the id; otherwise an index with that id and no earlier match |
| History.AddItemSpec | Buffer/Managers/ClipboardManager.swift:71-84 | the new item is in the list after `addItem`, which grows by at most one |
| History.AddItemUntrimmed | Buffer/Managers/ClipboardManager.swift:74-82 | when no trimming happens, the new item is first and the rest are the old entries in their old order, minus the unpinned ones of equal content, pinned ones all kept |
| History.RemoveItemSpec | Buffer/Managers/ClipboardManager.swift:107-112 | no entry with the id survives `removeItem`; every survivor was there; the list does not grow |
| History.TogglePinSpec | Buffer/Managers/ClipboardManager.swift:114-121 | `togglePin` keeps the length and, position by position, every id, content and type |
| History.ClearAllSpec | Buffer/Managers/ClipboardManager.swift:123-128 | every entry left by `clearAll` is pinned and was there; the list does not grow |
| History.AddItemUnpinned | Buffer/Managers/ClipboardManager.swift:74-82 | the unpinned entries after `addItem` are the new item followed by the old unpinned entries of other content, in order, cut to 25 |
| History.AddItemKeepsPinned | Buffer/Managers/ClipboardManager.swift:74-81 | adding an unpinned item leaves the pinned entries exactly as they were, in order |
| History.AddItemNeverDropsPinned | Buffer/Managers/ClipboardManager.swift:74-81 | every pinned entry survives `addItem`, whatever the added item |
| History.AddItemBound | Buffer/Managers/ClipboardManager.swift:78-82 | at most 25 unpinned entries after `addItem` |
| History.AddItemTrimmed | Buffer/Managers/ClipboardManager.swift:78-82 | when trimming happens, every pinned entry precedes every unpinned one, and the kept unpinned entries are the first 25 |
| History.AddItemCollapsesDuplicates | Buffer/Managers/ClipboardManager.swift:74-75 | the new item is the first unpinned entry, and no other unpinned entry has its content |
| History.AddItemSubMultiset | Buffer/Managers/ClipboardManager.swift:74-82 | `addItem` only removes entries and inserts the new one: the result is a sub-multiset of the new item plus the old list |
| History.AddItemKeepsDistinctIds | Buffer/Managers/ClipboardManager.swift:71-84 | adding an item whose id is new keeps the ids distinct |
| History.AddItemKeepsIdsBelow | Buffer/Managers/ClipboardManager.swift:71-84 | adding an item whose id was handed out keeps every id handed out |
| History.RemoveItemExact | Buffer/Managers/ClipboardManager.swift:109 | `removeItem` keeps, in order, exactly the entries with another id |
| History.RemoveItemDeletesOne | Buffer/Managers/ClipboardManager.swift:109 | with distinct ids, removing entry i's id deletes entry i alone |
| History.RemoveItemAbsent | Buffer/Managers/ClipboardManager.swift:109 | removing an absent id changes nothing |
| History.RemoveUndoesAdd | Buffer/Managers/ClipboardManager.swift:71-112 | removing a just-added fresh item restores the list when nothing was collapsed or trimmed |
| History.RemoveItemKeepsIds | Buffer/Managers/ClipboardManager.swift:109 | removal keeps ids distinct and handed out |
| History.TogglePinEffect | Buffer/Managers/ClipboardManager.swift:116-117 | `togglePin` flips the first entry with the id, changes nothing else, and is a no-op for an absent id |
| History.TogglePinTwice | Buffer/Managers/ClipboardManager.swift:116-117 | toggling the same id twice restores the list |
| History.TogglePinKeepsIds | Buffer/Managers/ClipboardManager.swift:116-117 | toggling keeps ids distinct and handed out |
| History.ClearAllKeepsPinned | Buffer/Managers/ClipboardManager.swift:125 | `clearAll` keeps exactly the pinned entries, in their order |
| History.ClearAllIdempotent | Buffer/Managers/ClipboardManager.swift:125 | clearing twice is clearing once |
| History.ClearAllKeepsIds | Buffer/Managers/ClipboardManager.swift:125 | clearing keeps ids distinct and handed out |
| History.DuplicatePrevention | BufferTests/BufferTests.swift:126-136 | adding two unpinned items of equal content to an empty list leaves only the second |
| History.PinnedDuplicateAddsEntry | Buffer/Managers/ClipboardManager.swift:74-75 | adding a copy of a pinned entry's content yields two entries, the new one first |
| History.ClearAllScenario | BufferTests/BufferTests.swift:93-105 | two different unpinned items make two entries, and `clearAll` empties the list |
| ClipboardManagement.Classify | Buffer/Managers/ClipboardManager.swift:35-41 | a string is a URL iff it has a scheme, text otherwise |
| ClipboardManagement.FileCaptures | Buffer/Managers/ClipboardManager.swift:53-57 | one capture per file URL |
| ClipboardManagement.FileCapturesShape | Buffer/Managers/ClipboardManager.swift:53-57 | each file capture is a `.file` item with no data, made from one of the file URLs |
| ClipboardManagement.CapturesStringFirst | Buffer/Managers/ClipboardManager.swift:31-41 | the string, when present, is added first, as URL or text; no other capture is URL or text |
| ClipboardManagement.CapturesData | Buffer/Managers/ClipboardManager.swift:46-67 | the image capture is "Image" with the TIFF bytes; no other capture keeps bytes; file captures are the file URLs |
| ClipboardManagement.Captures | Buffer/Managers/ClipboardManager.swift:31-68 | one capture for the string, one for the TIFF, one per file URL and one for rich text that decodes; the string's capture comes first, with its content and no bytes |
| ClipboardManagement.Fresh | Buffer/Models/ClipboardItem.swift:11-18 | the item created for a capture is unpinned and carries its id, content, type and data |
| ClipboardManagement.ReplayNext | Buffer/Managers/ClipboardManager.swift:54-57 | one more capture is one more `addItem` |
| ClipboardManagement.ReplayAppend | Buffer/Managers/ClipboardManager.swift:31-68 | adding the captures of `a`, then those of `b`, is adding those of `a + b`, ids running on |
| ClipboardManagement.AddCapturesAppend | Buffer/Managers/ClipboardManager.swift:31-68 | the same, for `addItem` |
| ClipboardManagement.TickKeepsPinned | Buffer/Managers/ClipboardManager.swift:31-68 | a tick never pins, unpins, drops or reorders a pinned entry |
| ClipboardManagement.TickLastStep | Buffer/Managers/ClipboardManager.swift:31-68 | the list after a tick is `addItem` of the last capture's item |
| ClipboardManagement.TickBound | Buffer/Managers/ClipboardManager.swift:31-82 | after a tick that adds anything, at most 25 unpinned entries |
| ClipboardManagement.TickNewestFirst | Buffer/Managers/ClipboardManager.swift:31-75 | after a tick, the last capture's item is the first unpinned entry, and no other unpinned entry has its content |
| ClipboardManagement.ClipboardManager.constructor | Buffer/Managers/ClipboardManager.swift:7-15 | empty history, no change count or content seen; ids valid |
| ClipboardManagement.ClipboardManager.MakeItem | Buffer/Models/ClipboardItem.swift:11-18 | a new item with the next id; the supply advances by one |
| ClipboardManagement.ClipboardManager.AddItem | Buffer/Managers/ClipboardManager.swift:71-84 | `items` becomes `AddItemSpec`: at most 25 unpinned, pinned entries kept, new item first among unpinned with no duplicate; ids stay valid |
| ClipboardManagement.ClipboardManager.RemoveItem | Buffer/Managers/ClipboardManager.swift:107-112 | `items` becomes `RemoveItemSpec`: exactly the entries with another id stay; ids stay valid |
| ClipboardManagement.ClipboardManager.TogglePin | Buffer/Managers/ClipboardManager.swift:114-121 | `items` becomes `TogglePinSpec`, length unchanged; ids stay valid |
| ClipboardManagement.ClipboardManager.ClearAll | Buffer/Managers/ClipboardManager.swift:123-128 | `items` becomes `ClearAllSpec`: exactly the pinned entries stay; ids stay valid |
| ClipboardManagement.ClipboardManager.AddCapture | Buffer/Managers/ClipboardManager.swift:36-40 | `addItem` of a fresh item for one capture |
| ClipboardManagement.ClipboardManager.AddString | Buffer/Managers/ClipboardManager.swift:31-41 | the string, if any, is added as URL or text |
| ClipboardManagement.ClipboardManager.AddImage | Buffer/Managers/ClipboardManager.swift:46-50 | the TIFF image, if any, is added as "Image" with its bytes |
| ClipboardManagement.ClipboardManager.AddCaptureAt | Buffer/Managers/ClipboardManager.swift:54-57 | one loop step of adding file URLs |
| ClipboardManagement.ClipboardManager.AddFiles | Buffer/Managers/ClipboardManager.swift:53-59 | each file URL is added, in order |
| ClipboardManagement.ClipboardManager.AddRichText | Buffer/Managers/ClipboardManager.swift:62-68 | the rich text is added when its bytes decode as UTF-8, without its bytes |
| ClipboardManagement.ClipboardManager.AddSnapshot | Buffer/Managers/ClipboardManager.swift:31-68 | string, image, files and rich text are added in that order |
| ClipboardManagement.ClipboardManager.CheckClipboard | Buffer/Managers/ClipboardManager.swift:24-69 | an unchanged count does nothing; otherwise the count is recorded; a repeated string ends the tick before any branch; otherwise every capture is added and `lastContent` updated |
| NameHelper.DetectImageFormat | Buffer/Helpers/ClipboardItemNameHelper.swift:93-107 | the result is one of the six format names |
| NameHelper.DetectImageFormatExact | Buffer/Helpers/ClipboardItemNameHelper.swift:94-106 | "JPEG" iff FF D8 FF; "PNG" iff 89 50 4E 47; "GIF" iff 47 49 46; "WebP" iff 52 49 46 46; "ICO" iff 00 00 01 00; "TIFF" iff none of them |
| NameHelper.DetectImageFormatFirstFour | Buffer/Helpers/ClipboardItemNameHelper.swift:93-107 | the format depends only on the first four bytes |
| NameHelper.DetectImageFormatShort | Buffer/Helpers/ClipboardItemNameHelper.swift:93-107 | data shorter than three bytes is "TIFF" |
| NameHelper.TrimLeading | Buffer/Helpers/ClipboardItemNameHelper.swift:73 | a suffix of the input; the dropped part is whitespace; it starts with non-whitespace |
| NameHelper.TrimTrailing | Buffer/Helpers/ClipboardItemNameHelper.swift:73 | a prefix of the input; the dropped part is whitespace; it ends with non-whitespace |
| NameHelper.Trim | Buffer/Helpers/ClipboardItemNameHelper.swift:73 | the trimmed text is no longer than the input and neither starts nor ends with whitespace |
| NameHelper.TrimSlice | Buffer/Helpers/ClipboardItemNameHelper.swift:73 | the trimmed text is a slice with only whitespace on either side, and starts and ends with non-whitespace |
| NameHelper.TrimEmpty | Buffer/Helpers/ClipboardItemNameHelper.swift:73-77 | trimming gives "" iff the text is all whitespace |
| NameHelper.TrimIdempotent | Buffer/Helpers/ClipboardItemNameHelper.swift:73 | trimming twice is trimming once |
| NameHelper.Truncate | Buffer/Helpers/ClipboardItemNameHelper.swift:79-84 | text within the limit is kept; longer text becomes its first `max` characters plus "..." |
| NameHelper.GenerateTextName | Buffer/Helpers/ClipboardItemNameHelper.swift:69-85 | never empty and never longer than 53 |
| NameHelper.TextNameBlank | Buffer/Helpers/ClipboardItemNameHelper.swift:70-77 | empty or whitespace-only text is named "Empty Text" |
| NameHelper.TextNameFits | Buffer/Helpers/ClipboardItemNameHelper.swift:79-80 | trimmed text of at most 50 characters is the name |
| NameHelper.TextNameTruncated | Buffer/Helpers/ClipboardItemNameHelper.swift:81-84 | longer trimmed text is cut to 50 characters plus "...", 53 in all |
| NameHelper.TextNameFromContent | Buffer/Helpers/ClipboardItemNameHelper.swift:69-85 | the name is "Empty Text", a piece of the content, or 50 characters of the content plus "..." |
| NameHelper.GenerateRichTextName | Buffer/Helpers/ClipboardItemNameHelper.swift:87-89 | the rich-text name equals the text name |
| NameHelper.NatToString | Buffer/Helpers/ClipboardItemNameHelper.swift:18 | decimal digits, no leading zero |
| NameHelper.NatToStringRoundTrip | Buffer/Helpers/ClipboardItemNameHelper.swift:18 | the digits read back as the number |
| NameHelper.IntToString | Buffer/Helpers/ClipboardItemNameHelper.swift:18 | a "-" first exactly for negative numbers |
| NameHelper.GenerateImageName | Buffer/Helpers/ClipboardItemNameHelper.swift:5-22 | "Image" without data or when the data does not decode; otherwise the sniffed format followed by " Image " and the size |
| NameHelper.GenerateFileName | Buffer/Helpers/ClipboardItemNameHelper.swift:24-25 | empty content is named "File" |
| NameHelper.FileNameShape | Buffer/Helpers/ClipboardItemNameHelper.swift:24-41 | a file name is never empty: "File", "Folder", the content, or the URL's last path component |
| NameHelper.GenerateUrlName | Buffer/Helpers/ClipboardItemNameHelper.swift:43-48 | empty content is "URL"; unparsable content is cut to 30 characters plus "..." |
| NameHelper.UrlNameCases | Buffer/Helpers/ClipboardItemNameHelper.swift:50-66 | a parsed URL is named by its file name (file scheme or extension), else its host, else the cut content |
| Localization.AppLanguage.Id | Buffer/Managers/LanguageManager.swift:9 | `id` is the raw value |
| Localization.AppLanguage.DisplayName | Buffer/Managers/LanguageManager.swift:11-16 | the name shown for a language ("English", "Polski") is non-empty and differs from its code |
| Localization.DisplayNameInjective | Buffer/Managers/LanguageManager.swift:11-16 | no two languages share a display name |
| Localization.AppLanguageFromRawValue | Buffer/Managers/LanguageManager.swift:5-7 | decoding yields only a language whose raw value it is |
| Localization.AppLanguageRoundTrip | Buffer/Managers/LanguageManager.swift:5-7 | "en" and "pl" decode back to their languages and are distinct |
| Localization.Bracketed | Buffer/Managers/LanguageManager.swift:147 | the key between "[" and "]" |
| Localization.Localized | Buffer/Managers/LanguageManager.swift:140-148 | the current language's entry; else the English entry; else the bracketed key |
| Localization.SameKeys | Buffer/Managers/LanguageManager.swift:34-138 | the English and Polish tables have the same keys |
| Localization.LocalizedFallback | Buffer/Managers/LanguageManager.swift:140-148 | in English: the English entry or the bracketed key; any table key gets the current language's entry; other keys get the bracketed form |
| ClipboardView.ClipboardFilter.LocalizedKey | Buffer/Views/ClipboardView.swift:401-410 | each filter's key has an entry in the translation table |
| ClipboardView.LocalizedKeyInjective | Buffer/Views/ClipboardView.swift:401-410 | no two filters share a key |
| ClipboardView.SearchExact | Buffer/Views/ClipboardView.swift:19-25 | an empty search keeps the items; otherwise exactly the items whose lowercased content contains the lowercased query |
| ClipboardView.FilteredItems | Buffer/Views/ClipboardView.swift:14-43 | never longer than `items`; an empty search with the "all" filter keeps `items` as they are |
| ClipboardView.FilteredItemsIsFilter | Buffer/Views/ClipboardView.swift:14-43 | the search and type stages together are one filter of `items` |
| ClipboardView.FilteredItemsExact | Buffer/Views/ClipboardView.swift:14-43 | the result is a subsequence of `items`, holding exactly the search hits the filter accepts (all, by type, or pinned) |
| ClipboardView.GroupedItems | Buffer/Views/ClipboardView.swift:46-71 | the sections are the pinned section and then the date sections of the filtered items |
| ClipboardView.Grouped | Buffer/Views/ClipboardView.swift:46-71 | at most one section per case plus the pinned one; no section is empty; the only header-less section is the first, present iff something is pinned |
| ClipboardView.DateSections | Buffer/Views/ClipboardView.swift:61-68 | at most one section per case considered (headers and contents: `DateSectionsShape`) |
| ClipboardView.GroupSections | Buffer/Views/ClipboardView.swift:50-70 | the loop appends one section per non-empty date section, in `allCases` order |
| ClipboardView.DateSectionsShape | Buffer/Views/ClipboardView.swift:61-68 | each date section is non-empty and holds exactly its unpinned items, in order |
| ClipboardView.GroupedShape | Buffer/Views/ClipboardView.swift:50-68 | a nil-header section leads iff an item is pinned, and holds exactly the pinned items; no section is empty; each date section holds its items in order |
| ClipboardView.HeadersAppend | Buffer/Views/ClipboardView.swift:64-67 | the headers of two section lists concatenate |
| ClipboardView.DateSectionsHeaders | Buffer/Views/ClipboardView.swift:64-67 | the date headers are the cases with items, in `allCases` order |
| ClipboardView.GroupedHeaders | Buffer/Views/ClipboardView.swift:61-68 | the headers are the cases that have items, a subsequence of `allCases` |
| ClipboardView.FlattenAppend | Buffer/Views/ClipboardView.swift:53-68 | the items of two section lists concatenate |
| ClipboardView.DateSectionsItems | Buffer/Views/ClipboardView.swift:61-68 | the date sections hold each unpinned item whose case is listed, exactly once |
| ClipboardView.GroupedIsPermutation | Buffer/Views/ClipboardView.swift:50-68 | with distinct cases covering every item, the sections' contents are a permutation of the filtered items |
| ClipboardView.EmptyStateMessageKey | Buffer/Views/ClipboardView.swift:270-288 | "empty.noFound" iff the search is non-empty; the key has a translation |
| ClipboardView.EmptyStateKeyInjective | Buffer/Views/ClipboardView.swift:274-287 | without a search, each filter has its own key |
| ClipboardView.EmptyStateMessage | Buffer/Views/ClipboardView.swift:270-288 | the message is the current language's entry for the key |
| Shortcuts.KeyLabel | Buffer/Managers/ShortcutManager.swift:22-26 | the uppercased characters when present, else "?" when the key code is no scalar |
| Shortcuts.DisplayString | Buffer/Managers/ShortcutManager.swift:14-29 | the modifier symbols followed by the key label |
| Shortcuts.ModifierSymbols | Buffer/Managers/ShortcutManager.swift:17-20 | at most four symbols, each one of ⌘⇧⌥⌃ and each standing for a flag that is set |
| Shortcuts.ModifierSymbolsIsFilter | Buffer/Managers/ShortcutManager.swift:17-20 | the symbols are ⌘⇧⌥⌃ with those whose flag is unset removed |
| Shortcuts.ModifierSymbolsExact | Buffer/Managers/ShortcutManager.swift:17-20 | each symbol appears iff its flag is set, in the order ⌘⇧⌥⌃ |
| Shortcuts.Recorded | Buffer/Managers/ShortcutManager.swift:81-85 | the stored shortcut keeps key code and characters, with modifiers masked to the device-independent bits |
| Shortcuts.MatchesEvent | Buffer/Managers/ShortcutManager.swift:88-105 | never while recording; always for Cmd+Shift+V when not recording; without a custom shortcut only for Cmd+Shift+V |
| Shortcuts.RecordedShortcutMatches | Buffer/Managers/ShortcutManager.swift:77-105 | a recorded shortcut matches the event it was recorded from |
| Shortcuts.MatchesIgnoresDeviceBits | Buffer/Managers/ShortcutManager.swift:93-99 | events differing only in device-dependent flag bits match alike |
| Shortcuts.HasCommandShiftMasked | Buffer/Managers/ShortcutManager.swift:93 | command+shift is a device-independent test |
| Shortcuts.MatchesWithCustom | Buffer/Managers/ShortcutManager.swift:96-100 | with a custom shortcut: matches iff the default test holds or key code and masked modifiers are equal |
| Shortcuts.ShortcutManager.constructor | Buffer/Managers/ShortcutManager.swift:41-48 | not recording; the loaded shortcut |
| Shortcuts.ShortcutManager.StartRecording | Buffer/Managers/ShortcutManager.swift:50-52 | recording afterwards; already recording changes nothing |
| Shortcuts.ShortcutManager.StopRecording | Buffer/Managers/ShortcutManager.swift:69-70 | not recording afterwards |
| Shortcuts.ShortcutManager.SetShortcut | Buffer/Managers/ShortcutManager.swift:77-86 | key codes from 0xF800 are ignored; otherwise the recorded shortcut is stored |
| Shortcuts.ShortcutManager.OnRecordingKeyDown | Buffer/Managers/ShortcutManager.swift:54-66 | Escape cancels and other keys are stored; recording stops either way |
| Shortcuts.ShortcutManager.Matches | Buffer/Managers/ShortcutManager.swift:88-105 | `matches(_:)` on the manager's state |
| HotKeys.EncodeScalarDecodes | Buffer/Managers/HotKeyManager.swift:135 | the leading byte carries the length marker (0xxxxxxx, 110xxxxx, 1110xxxx, 11110xxx), the others are 10xxxxxx, and decoding gives back the scalar |
| HotKeys.EncodeScalar | Buffer/Managers/HotKeyManager.swift:135 | one byte below U+0080 (the code itself), two below U+0800, three below U+10000, four above |
| HotKeys.EncodeScalarInjective | Buffer/Managers/HotKeyManager.swift:135 | different scalars have different encodings |
| HotKeys.Utf8 | Buffer/Managers/HotKeyManager.swift:135 | between one and four bytes per character |
| HotKeys.Utf8Append | Buffer/Managers/HotKeyManager.swift:135 | the encoding of a concatenation is the concatenation of the encodings |
| HotKeys.Utf8Ascii | Buffer/Managers/HotKeyManager.swift:135 | ASCII text encodes to its character codes |
| HotKeys.AsUInt32 | Buffer/Managers/HotKeyManager.swift:132-140 | the loop computes the value of the word that shifting in the UTF-8 bytes one by one produces |
| HotKeys.ShiftIn | Buffer/Managers/HotKeyManager.swift:136 | `(w << 8) \| UInt32(b)` on a `UInt32`: the top byte drops out, the value becomes (value · 256 + b) mod 2^32 |
| HotKeys.Pack | Buffer/Managers/HotKeyManager.swift:134-138 | the low byte of the word is the last byte shifted in |
| HotKeys.PackBytes | Buffer/Managers/HotKeyManager.swift:134-138 | the word is the last four bytes, most significant first, zero-padded in front when there are fewer: big-endian packing in which only the last four bytes count |
| HotKeys.AsUInt32Empty | Buffer/Managers/HotKeyManager.swift:134-138 | "" packs to 0 |
| HotKeys.SignatureValue | Buffer/Managers/HotKeyManager.swift:25 | "hvcb" packs to 0x68766362 |
| HotKeys.CarbonModifiers | Buffer/Managers/HotKeyManager.swift:28-57 | each NSEvent flag maps to its Carbon bit, no other bits are set, and the raw `cmdKey \| shiftKey` input maps to exactly `cmdKey \| shiftKey` |

## Left out

- The polling timer and run-loop registration (Buffer/Managers/ClipboardManager.swift:17-22) are concurrency plumbing. `CheckClipboard` is one tick. The `DispatchQueue.main.async` bodies run synchronously, so interleavings of queued bodies are not modelled.
- Pasteboard reads are a `Snapshot` parameter. `copyItem` (Buffer/Managers/ClipboardManager.swift:86-105) only writes to the pasteboard, so it is not modelled.
- Persistence is not modelled: `saveItems`/`loadSavedItems`, shortcut save/load and the `@AppStorage` language are UserDefaults and JSON encoding. The history manager starts empty, and the shortcut manager takes the loaded shortcut as a parameter.
- `URL(string:)`, `NSImage` decoding, `lowercased`, `uppercased`, UTF-8 decoding and the clock are parameters, not definitions.
- `DateSection`, `dateSection` and `DateFormatter` are not part of this model. Grouping is generic over the section type.
- `NameHelper.GenerateTextName`: Swift's `count` and `prefix` count grapheme clusters, while the model counts Unicode scalars. The 50-character cut therefore agrees only for text whose characters are single scalars.
- `NameHelper.GenerateImageName`: states the format prefix of the name, not the decimal rendering of the size. `Int(size.width)` on a floating-point size is the decoder parameter's job.
- `NameHelper.GenerateFileName`: its contract only covers the empty-content guard. The other branches are covered by `FileNameShape`, which assumes that a URL with an extension has a non-empty last path component.
- `Shortcuts.KeyLabel`: states the "?" fallback and the uppercased characters. It does not state the character rendered for a valid scalar key code.
- `HotKeys.CarbonModifiers`: `UInt(modifiers)` traps on a negative `Int`, so the method requires a non-negative input below 2^63. Swift's `Int` is 64-bit.
- Event monitors, `RegisterEventHotKey`, `InstallEventHandler` and `unregisterHotkey` are OS calls. Only the recording monitor's key handler is modelled (`OnRecordingKeyDown`).
- `ClipboardManagement.ClipboardManager.AddItem`: strings are sequences of Unicode scalars, and the duplicate test compares them scalar by scalar. Swift's `String ==` also identifies canonically equivalent strings, such as a precomposed "é" and "e" plus a combining accent. The model treats those as different contents, so it keeps an entry that Swift would collapse.
- `ClipboardManagement.ClipboardManager.CheckClipboard`: the `string != lastContent` guard (Buffer/Managers/ClipboardManager.swift:32) is compared scalar by scalar, not up to canonical equivalence.
- `ClipboardManagement.ClipboardManager.CheckClipboard`: one `now` stamps every item a tick creates, whereas each `ClipboardItem` init reads `Date()` itself (Buffer/Models/ClipboardItem.swift:15). Items of one tick may differ by a few microseconds in Swift.
- `ClipboardView.SearchExact`: `contains` is a scalar-by-scalar substring test, while Swift's `String.contains` matches up to canonical equivalence.
- `NameHelper.GenerateUrlName`: Swift's `count` and `prefix(30)` count grapheme clusters, while the model counts Unicode scalars. The 30-character cut therefore agrees only for text whose characters are single scalars.
- SwiftUI views, windows, animations, settings and `emptyStateSubtitle` are presentation, not history logic.
- `ClipboardManagement.ClipboardManager.TogglePin`: unpinning can leave more than 25 unpinned entries, because the cap is only applied in `addItem`. The model states this as written, so its contract does not promise the cap.
