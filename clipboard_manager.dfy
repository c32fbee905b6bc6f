/**
 * `ClipboardManager`: the change detector and stack store driven by polls, the
 * restore engine driven by the hotkey, and the two stack commands of the menu.
 */
module Clipboard {
  import opened Wrappers
  import opened PasteboardItems
  import opened StackStore
  import opened RestorePolicy

  /**
   * The system pasteboard as far as the engine uses it: a change counter and the
   * list of items, which the platform may fail to provide (`None`).
   */
  class Pasteboard {
    var changeCount: int
    var items: Option<seq<PlatformItem>>

    constructor (changeCount: int, items: Option<seq<PlatformItem>>)
      ensures this.changeCount == changeCount && this.items == items
    {
      this.changeCount := changeCount;
      this.items := items;
    }

    /** `clearContents()`: empties the pasteboard; each clear counts as one change. */
    method ClearContents()
      modifies this
      ensures changeCount == old(changeCount) + 1
      ensures items == Some([])
    {
      changeCount := changeCount + 1;
      items := Some([]);
    }

    /** `writeObjects(_:)`: appends the items after those already there. */
    method WriteObjects(objects: seq<PlatformItem>)
      modifies this
      ensures changeCount == old(changeCount)
      ensures items == Some(match old(items) case Some(present) => present + objects case None => objects)
    {
      match items
      case Some(present) => items := Some(present + objects);
      case None => items := Some(objects);
    }
  }

  class ClipboardManager {
    const pasteboard: Pasteboard
    var changeCount: int
    var clipboardStack: seq<Entry>
    var ignoreNextChange: bool

    /** `init()`: starts from the pasteboard's current counter with an empty stack. */
    constructor (pasteboard: Pasteboard)
      ensures this.pasteboard == pasteboard
      ensures changeCount == pasteboard.changeCount
      ensures clipboardStack == [] && !ignoreNextChange
    {
      this.pasteboard := pasteboard;
      changeCount := pasteboard.changeCount;
      clipboardStack := [];
      ignoreNextChange := false;
    }

    /** `checkForChanges()`: one poll of the pasteboard; the configured depth is read at the poll. */
    method CheckForChanges(maxStackDepth: int)
      modifies this
      // a pending self-write is acknowledged: flag cleared, counter resynced, stack kept
      ensures old(ignoreNextChange) ==>
                && !ignoreNextChange
                && changeCount == pasteboard.changeCount
                && clipboardStack == old(clipboardStack)
      // no change since the last poll: nothing happens
      ensures !old(ignoreNextChange) && pasteboard.changeCount == old(changeCount) ==>
                unchanged(this)
      // a change: the snapshot is pushed when the items could be listed, the counter resynced
      ensures !old(ignoreNextChange) && pasteboard.changeCount != old(changeCount) ==>
                && !ignoreNextChange
                && changeCount == pasteboard.changeCount
                && clipboardStack == match pasteboard.items
                                     case None => old(clipboardStack)
                                     case Some(newItems) =>
                                       Push(old(clipboardStack), Snapshot(newItems), maxStackDepth)
      // the stack keeps its depth bound and never gains two equal neighbours
      ensures old(|clipboardStack|) <= maxStackDepth ==> |clipboardStack| <= maxStackDepth
      ensures NoAdjacentDuplicates(old(clipboardStack)) ==> NoAdjacentDuplicates(clipboardStack)
    {
      if ignoreNextChange {
        ignoreNextChange := false;
        changeCount := pasteboard.changeCount;
        return;
      }
      if pasteboard.changeCount != changeCount {
        match pasteboard.items {
          case Some(newItems) =>
            var snapshot := CaptureAll(newItems);
            if clipboardStack == [] || clipboardStack[0] != snapshot {
              clipboardStack := [snapshot] + clipboardStack;
              if |clipboardStack| > maxStackDepth {
                clipboardStack := clipboardStack[..|clipboardStack| - 1];
              }
            }
          case None =>
        }
        changeCount := pasteboard.changeCount;
      }
    }

    /**
     * `pasteTopElement(pop:)`: writes the top entry back to the pasteboard, marking
     * the write as the engine's own, and returns the multiplier of the delay after
     * which the paste keystroke is sent (none when the stack is empty).
     */
    method PasteTopElement(pop: bool) returns (delay: Option<Multiplier>)
      modifies this, pasteboard
      ensures old(clipboardStack) == [] ==>
                && delay == None
                && unchanged(this) && unchanged(pasteboard)
      ensures old(clipboardStack) != [] ==>
                && ignoreNextChange
                && changeCount == old(changeCount)
                && clipboardStack == (if pop then old(clipboardStack)[1..] else old(clipboardStack))
                && pasteboard.changeCount == old(pasteboard.changeCount) + 1
                && pasteboard.items.Some?
                && CarriesAll(pasteboard.items.value, old(clipboardStack)[0])
                && delay == Some(DelayMultiplier(FlavorsOf(old(clipboardStack)[0])))
      ensures NoAdjacentDuplicates(old(clipboardStack)) ==> NoAdjacentDuplicates(clipboardStack)
    {
      if clipboardStack == [] {
        return None;
      }
      var elementToPasteData := clipboardStack[0];
      ignoreNextChange := true;
      var newItems := ToPasteboardItems(elementToPasteData);
      pasteboard.ClearContents();
      pasteboard.WriteObjects(newItems);
      var allTypes := UnionOfTypes(elementToPasteData);
      delay := Some(DelayMultiplier(allTypes));
      if pop {
        clipboardStack := clipboardStack[1..];
      }
    }

    /** `copyToClipboard(_:)`: writes an entry to the pasteboard as an ordinary change. */
    method CopyToClipboard(content: Entry)
      modifies pasteboard
      ensures pasteboard.changeCount == old(pasteboard.changeCount) + 1
      ensures pasteboard.items.Some? && CarriesAll(pasteboard.items.value, content)
      ensures clipboardStack == old(clipboardStack)
      ensures ignoreNextChange == old(ignoreNextChange) && changeCount == old(changeCount)
    {
      pasteboard.ClearContents();
      var copiedItems := ToPasteboardItems(content);
      pasteboard.WriteObjects(copiedItems);
    }

    /** `clearStack()`: empties the stack, whatever it held; the detector state is kept. */
    method ClearStack()
      modifies this`clipboardStack
      ensures clipboardStack == []
      ensures changeCount == old(changeCount) && ignoreNextChange == old(ignoreNextChange)
    {
      clipboardStack := [];
    }
  }

  /**
   * Why the flag is needed: were a popping restore's own write polled as an
   * ordinary change, the entry just popped would come straight back on top, and
   * the stack would be as before the pop.
   */
  lemma PopWithoutSuppressionUndoesPop(stack: seq<Entry>, written: seq<PlatformItem>, maxStackDepth: int)
    requires stack != [] && NoAdjacentDuplicates(stack) && |stack| <= maxStackDepth
    requires CarriesAll(written, stack[0])
    ensures Push(stack[1..], Snapshot(written), maxStackDepth) == stack
  {
    SnapshotRoundTrip(written, stack[0]);
    if |stack| > 1 {
      assert stack[1..][0] == stack[1] != stack[0];
    }
    assert [stack[0]] + stack[1..] == stack;
  }

  /**
   * A restore followed by a poll, with no other writer in between: the engine's own
   * write adds no entry, and the detector is back in step with the pasteboard.
   */
  method RestoreThenPoll(manager: ClipboardManager, pop: bool, maxStackDepth: int)
    modifies manager, manager.pasteboard
    ensures old(manager.clipboardStack) != [] ==>
              manager.clipboardStack == (if pop then old(manager.clipboardStack)[1..] else old(manager.clipboardStack))
    ensures old(manager.clipboardStack) != [] ==>
              && !manager.ignoreNextChange
              && manager.changeCount == manager.pasteboard.changeCount
  {
    var _ := manager.PasteTopElement(pop);
    manager.CheckForChanges(maxStackDepth);
  }

  /**
   * A menu copy followed by a poll: the write is an ordinary change, so the copied
   * entry lands on top of the stack unless it is already there.
   */
  method CopyThenPoll(manager: ClipboardManager, content: Entry, maxStackDepth: int)
    requires !manager.ignoreNextChange
    requires manager.changeCount == manager.pasteboard.changeCount
    modifies manager, manager.pasteboard
    ensures manager.clipboardStack == Push(old(manager.clipboardStack), content, maxStackDepth)
    ensures manager.changeCount == manager.pasteboard.changeCount
  {
    manager.CopyToClipboard(content);
    manager.CheckForChanges(maxStackDepth);
    SnapshotRoundTrip(manager.pasteboard.items.value, content);
  }
}

/** A walk-through: depth 2, three plain-text copies, then a popping restore. */
module Scenario {
  import opened Wrappers
  import opened PasteboardItems
  import opened StackStore
  import opened RestorePolicy
  import opened Clipboard

  function PlainTextItem(bytes: Bytes): PlatformItem {
    PlatformItem([PlainText], map[PlainText := bytes])
  }

  function PlainTextEntry(bytes: Bytes): Entry {
    [ItemData(map[PlainText := bytes])]
  }

  lemma PlainTextSnapshot(bytes: Bytes)
    ensures Snapshot([PlainTextItem(bytes)]) == PlainTextEntry(bytes)
  {
    var d := Captured(PlainTextItem(bytes));
    assert d.dataDict == map[PlainText := bytes];
  }

  /** Another application copies plain text. */
  method CopyPlainText(board: Pasteboard, bytes: Bytes)
    modifies board
    ensures board.changeCount == old(board.changeCount) + 1
    ensures board.items == Some([PlainTextItem(bytes)])
  {
    board.ClearContents();
    board.WriteObjects([PlainTextItem(bytes)]);
    assert [] + [PlainTextItem(bytes)] == [PlainTextItem(bytes)];
  }

  /** The manager polls after another application copied plain text. */
  method PollAfterCopy(manager: ClipboardManager, bytes: Bytes, maxStackDepth: int)
    requires !manager.ignoreNextChange
    requires manager.changeCount == manager.pasteboard.changeCount
    modifies manager, manager.pasteboard
    ensures !manager.ignoreNextChange
    ensures manager.changeCount == manager.pasteboard.changeCount
    ensures manager.clipboardStack == Push(old(manager.clipboardStack), PlainTextEntry(bytes), maxStackDepth)
  {
    CopyPlainText(manager.pasteboard, bytes);
    manager.CheckForChanges(maxStackDepth);
    PlainTextSnapshot(bytes);
  }

  method ThreeCopiesThenPop() {
    var hello: Bytes := [0x68, 0x65, 0x6c, 0x6c, 0x6f];
    var world: Bytes := [0x77, 0x6f, 0x72, 0x6c, 0x64];
    var foo: Bytes := [0x66, 0x6f, 0x6f];
    var a, b, c := PlainTextEntry(hello), PlainTextEntry(world), PlainTextEntry(foo);
    assert a[0].dataDict[PlainText] != b[0].dataDict[PlainText];
    assert b[0].dataDict[PlainText] != c[0].dataDict[PlainText];

    var board := new Pasteboard(0, Some([]));
    var manager := new ClipboardManager(board);
    PollAfterCopy(manager, hello, 2);
    assert manager.clipboardStack == [a];
    PollAfterCopy(manager, world, 2);
    assert manager.clipboardStack == [b, a];
    PollAfterCopy(manager, foo, 2);
    assert manager.clipboardStack == [c, b];

    var delay := manager.PasteTopElement(true);
    assert manager.clipboardStack == [b];
    assert FlavorsOf(c) == {PlainText};
    assert delay == Some(Half);
    SnapshotRoundTrip(board.items.value, c);

    manager.CheckForChanges(2);
    assert manager.clipboardStack == [b];
  }
}
