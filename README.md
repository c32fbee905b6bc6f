# StackClip clipboard engine, modelled in Dafny

StackClip is a macOS menu bar app that keeps a stack of clipboard contents.
A timer polls the system pasteboard. Each real change is captured as a snapshot: one
`PasteboardItemData` (a map from pasteboard type to bytes) per pasteboard item. The
snapshot is pushed on the front of `clipboardStack`, unless it equals the current
top. One entry is dropped from the back when the stack is deeper than
`maxStackDepth`. A hotkey restores the top entry to the pasteboard. A one-shot flag,
`ignoreNextChange`, keeps the engine's own write from being captured again. The app
then schedules a synthetic Command-V after a delay chosen from the entry's types, and
pops the entry at once, without waiting for that delay. The menu lists the
entries by a text preview, copies an entry back when clicked, and can clear the stack.

This project models that engine:

- `wrappers.dfy` holds `Option`.
- `pasteboard_items.dfy` (module `PasteboardItems`) models the snapshot value. It covers
  capture from a platform item, writing back with `toPasteboardItem`, the round trip
  between the two, and the `displayString` preview.
- `stack_store.dfy` (module `StackStore`) models the stack update a poll performs, as a
  pure function. Lemmas relate it to the unbounded history of captures.
- `restore_policy.dfy` (module `RestorePolicy`) models the union of an entry's types and
  the delay table, as a multiplier `Half | One | Two` of the base paste delay.
- `clipboard_manager.dfy` (module `Clipboard`) has two classes. `Pasteboard` holds a
  change counter and an optional item list. `ClipboardManager` holds the fields
  `changeCount`, `ignoreNextChange` and `clipboardStack`. Its methods are
  `CheckForChanges`, `PasteTopElement`, `CopyToClipboard` and `ClearStack`, and the
  module has composed scenarios. Module `Scenario`, in the same file, is a walk-through:
  three plain-text copies at depth 2, then a popping restore.
- `menu.dfy` (module `Menu`) models the menu's label for each entry.

Inputs from outside the engine are parameters:

- the pasteboard's change counter and items, as the state of a `Pasteboard` object;
- `maxStackDepth`, as an argument of each poll, since the setting can change between polls;
- the UTF-8 and RTF decoders, as functions `Bytes -> Option<string>`.

Where a cleaner design would behave differently, the model follows the code:

- A snapshot taken from an empty item list is `[]`, and it is stored like any other.
- Eviction removes exactly one entry (`removeLast`). It does not loop until the stack fits.
- The preview is not truncated.
- When the pasteboard cannot list its items (`pasteboardItems` is nil), nothing is stored,
  but the counter is still resynchronised.

## Model

| member | source | states |
|---|---|---|
| PasteboardItems.CaptureTypesExactly | StackClip/ClipboardManager.swift:19-27 | the dictionary built by visiting the advertised types holds exactly the advertised types whose data is readable, each mapped to its data |
| PasteboardItems.Captured | StackClip/ClipboardManager.swift:19-27 | a captured item's keys are exactly the advertised and readable types, and each value is the data read for that type |
| PasteboardItems.Capture | StackClip/ClipboardManager.swift:19-27 | the loop of `init(item:)` over the advertised types produces the captured value |
| PasteboardItems.CaptureIgnoresTypeOrder | StackClip/ClipboardManager.swift:16-27 | two items that advertise the same types, in any order or with repeats, and hold the same data capture to equal values; equality does not depend on order |
| PasteboardItems.PlatformItem.SetData | StackClip/ClipboardManager.swift:41 | setting data stores it under the type and advertises the type once, with no duplicate types |
| PasteboardItems.ToPasteboardItem | StackClip/ClipboardManager.swift:38-44 | the written item carries every stored (type, data) pair and nothing else, and each type appears once |
| PasteboardItems.RoundTrip | StackClip/ClipboardManager.swift:19-27 | capturing an item written from a value gives back that value |
| PasteboardItems.Snapshot | StackClip/ClipboardManager.swift:91-92 | a snapshot has one captured value per pasteboard item, in the items' order |
| PasteboardItems.CaptureAll | StackClip/ClipboardManager.swift:92 | mapping the capture over the pasteboard's items yields the snapshot of those items |
| PasteboardItems.ToPasteboardItems | StackClip/ClipboardManager.swift:123 | the items written for an entry carry the entry's values one for one, in order |
| PasteboardItems.SnapshotRoundTrip | StackClip/ClipboardManager.swift:123-126 | re-capturing the items written for an entry gives back the entry |
| PasteboardItems.DisplayString | StackClip/ClipboardManager.swift:48-59 | a preview is never empty and comes from the plain-text or RTF data; decodable non-empty plain text always wins; there is no preview exactly when neither plain text nor RTF gives non-empty text |
| PasteboardItems.PreviewIgnoresOtherTypes | StackClip/ClipboardManager.swift:48-59 | adding or replacing a type other than plain text and RTF leaves the preview unchanged |
| StackStore.Push | StackClip/ClipboardManager.swift:93-97 | a snapshot equal to the top leaves the stack unchanged; otherwise the result is the snapshot followed by the old entries in order, minus at most the last one, which is dropped exactly when the count would exceed the depth; a stack within the depth stays within it; no two neighbouring entries become equal |
| StackStore.PushKeepsNewest | StackClip/ClipboardManager.swift:93-97 | for any depth, 0 included, pushing onto the newest entries of a history gives the newest entries of the history after the push |
| StackStore.PushAllFromHistory | StackClip/ClipboardManager.swift:93-97 | after any run of pushes, the bounded stack equals the newest entries of the unbounded history after that run |
| StackStore.PushAllKeepsNewest | StackClip/ClipboardManager.swift:93-97 | starting within the depth, any run of captures leaves exactly the newest `maxStackDepth` entries of the unbounded history of distinct adjacent captures, newest first |
| StackStore.RecordAllTop | StackClip/ClipboardManager.swift:94 | after a non-empty run of captures, the newest capture is on top |
| StackStore.RecordAllKeepsOlder | StackClip/ClipboardManager.swift:93-94 | the history grows by at most one entry per capture, and the entries already there stay at the back, in order |
| RestorePolicy.FlavorsOfExactly | StackClip/ClipboardManager.swift:131-137 | a type is in the union exactly when some item of the entry stores it |
| RestorePolicy.UnionOfTypes | StackClip/ClipboardManager.swift:131-138 | the nested loops collect exactly the union of the types of the entry's items |
| RestorePolicy.DelayMultiplier | StackClip/ClipboardManager.swift:138-152 | Half exactly for the set {plain text}; One exactly for any other set of at most two types that includes RTF, HTML or TIFF; Two for more than two types and for the empty set |
| RestorePolicy.HalfDelayIffOnlyPlainText | StackClip/ClipboardManager.swift:131-144 | an entry waits half the base delay exactly when some item holds plain text and no item holds any other type |
| RestorePolicy.DelayTableExamples | StackClip/ClipboardManager.swift:140-152 | {plain} gives Half; {RTF, TIFF}, {plain, RTF} and {TIFF} give One; {plain, RTF, HTML} and a lone PNG give Two |
| Clipboard.Pasteboard.constructor | StackClip/ClipboardManager.swift:63 | a pasteboard starts with the given counter and items |
| Clipboard.Pasteboard.ClearContents | StackClip/ClipboardManager.swift:125 | clearing empties the items and counts as one change |
| Clipboard.Pasteboard.WriteObjects | StackClip/ClipboardManager.swift:126 | writing appends the items and leaves the counter alone |
| Clipboard.ClipboardManager.constructor | StackClip/ClipboardManager.swift:69-73 | the manager starts in step with the pasteboard's counter, with an empty stack and the flag clear |
| Clipboard.ClipboardManager.CheckForChanges | StackClip/ClipboardManager.swift:81-106 | with the flag set, a poll clears it and resyncs the counter, and the stack is kept whether or not the counter moved; with the flag clear and the counter unchanged, nothing changes; with a change, the pasteboard's snapshot is pushed (if the items could be listed) and the counter resynced; the depth bound and the no-equal-neighbours property are preserved |
| Clipboard.ClipboardManager.PasteTopElement | StackClip/ClipboardManager.swift:114-168 | an empty stack changes nothing and schedules no paste; otherwise the flag is set, the pasteboard is replaced by items carrying the top entry, the counter field is untouched, the multiplier is the table's value for the entry's types, and `pop` removes exactly the top entry (without `pop` the stack is untouched) |
| Clipboard.ClipboardManager.CopyToClipboard | StackClip/StackClipApp.swift:43-47 | the pasteboard is replaced by items carrying the entry in order; the stack, the flag and the counter field are untouched |
| Clipboard.ClipboardManager.ClearStack | StackClip/StackClipApp.swift:49-51 | the stack is empty afterwards from any state, so clearing twice is clearing once; the counter and the flag are kept |
| Clipboard.PopWithoutSuppressionUndoesPop | StackClip/ClipboardManager.swift:121-126 | were a popping restore's write polled as an ordinary change, the popped entry would be pushed straight back and the stack would be as before the pop; this is what the flag prevents |
| Clipboard.RestoreThenPoll | StackClip/ClipboardManager.swift:82-88 | a restore followed by a poll adds no entry: the stack is the popped or unpopped stack, the flag is clear and the counter is in step |
| Clipboard.CopyThenPoll | StackClip/StackClipApp.swift:43-47 | a menu copy followed by a poll is an ordinary change: the copied entry is pushed on top unless it already is the top |
| Menu.EntryLabel | StackClip/StackClipApp.swift:23-28 | an entry's label is its first item's preview when there is one, otherwise "[多类型项]", also for an empty entry; a label is never empty |
| Menu.MenuItems | StackClip/StackClipApp.swift:16-30 | an empty stack shows only "剪贴板为空"; otherwise there is one label per entry, in stack order, each that entry's label |

## Left out

- The 0.5 s polling timer and the hotkey registration through `KeyboardShortcuts` are event sources. A poll and a restore are method calls here.
- Clipboard.ClipboardManager.PasteTopElement: returns the chosen delay multiplier instead of scheduling `simulatePaste` with `DispatchQueue.main.asyncAfter`. The synthetic Command-V events (`CGEvent`) are foreign calls and scheduling.
- Clipboard.ClipboardManager.PasteTopElement: in the source the flag is set before the pasteboard write. A postcondition of a sequential method cannot observe that order. The model sets the flag first, as the source does.
- The delay itself (`basePasteDelay` times 0.5, 1 or 2) is floating-point arithmetic and is left out. The model gives the multiplier.
- UTF-8 decoding and `NSAttributedString` RTF parsing are foreign library calls. They are parameters of `DisplayString`: partial decoders that the model does not open.
- `hash(into:)` uses the opaque `Hasher` and is left out. Equality is Dafny's structural equality on the map.
- Clipboard.Pasteboard.ClearContents: the model assumes each clear raises the platform's change counter by exactly one and that a write of objects leaves it alone. The real counter is only promised to change.
- Writes by other processes that interleave with the engine are not modelled. Every method runs without interference. `Scenario.CopyPlainText` stands for another application's copy between polls.
- `ClipboardManager.pasteboard` is a `var` in the source but is never reassigned. It is a `const` here.
- The `#if DEBUG` log output is left out.
- StackClip/ContentView.swift (settings form, accessibility permission) is platform UI and is not part of this model.
- StackClip/Config.swift holds default values only (`maxStackDepth` 20, `basePasteDelay` 0.25). These are parameters here.
- Menu.MenuItems: the menu's rendering is left out: `lineLimit(1)`, the divider, the clear button's placement and the `ForEach` identity by element. Only the label choice and the empty notice are modelled.
