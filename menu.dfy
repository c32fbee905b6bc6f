/** The menu bar list of the app: one button per stack entry, labelled by a preview. */
module Menu {
  import opened Wrappers
  import opened PasteboardItems
  import opened StackStore

  /** Shown alone when the stack is empty. */
  const EmptyStackNotice: string := "剪贴板为空"

  /** The label of an entry that has no preview. */
  const MultiTypeLabel: string := "[多类型项]"

  datatype MenuContent =
    | EmptyNotice(text: string)
    | EntryButtons(labels: seq<string>)

  /** The label of an entry's button: its first item's preview, or the sentinel. */
  function EntryLabel(entry: Entry, utf8: Bytes -> Option<string>, rtf: Bytes -> Option<string>): (title: string)
    ensures title != []
    ensures entry != [] && DisplayString(entry[0], utf8, rtf).Some? ==>
              title == DisplayString(entry[0], utf8, rtf).value
    ensures entry == [] || DisplayString(entry[0], utf8, rtf).None? ==> title == MultiTypeLabel
  {
    if entry != [] && DisplayString(entry[0], utf8, rtf).Some? then DisplayString(entry[0], utf8, rtf).value
    else MultiTypeLabel
  }

  /** What the menu lists for a stack, top entry first. */
  function MenuItems(stack: seq<Entry>, utf8: Bytes -> Option<string>, rtf: Bytes -> Option<string>): (m: MenuContent)
    ensures stack == [] <==> m == EmptyNotice(EmptyStackNotice)
    ensures stack != [] ==> m.EntryButtons? && |m.labels| == |stack|
    ensures m.EntryButtons? ==> forall i :: 0 <= i < |stack| ==> m.labels[i] == EntryLabel(stack[i], utf8, rtf)
  {
    if stack == [] then EmptyNotice(EmptyStackNotice)
    else EntryButtons(seq(|stack|, i requires 0 <= i < |stack| => EntryLabel(stack[i], utf8, rtf)))
  }
}
