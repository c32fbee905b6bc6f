/**
 * The clipboard stack as a value: newest entry first, an entry being the list
 * of item snapshots one clipboard change produced (`[PasteboardItemData]`).
 */
module StackStore {
  import opened PasteboardItems

  type Entry = seq<ItemData>

  /**
   * What a poll does with a captured snapshot: insert it at the front unless it
   * equals the current first entry, then remove ONE entry from the back when the
   * count exceeds `maxStackDepth`.
   */
  function Push(stack: seq<Entry>, snapshot: Entry, maxStackDepth: int): (r: seq<Entry>)
    // adjacent duplicate: nothing changes
    ensures stack != [] && stack[0] == snapshot ==> r == stack
    // otherwise the snapshot goes in front of the old entries and at most the oldest is lost
    ensures !(stack != [] && stack[0] == snapshot) ==>
              && |stack| <= |r| <= |stack| + 1
              && r == ([snapshot] + stack)[..|r|]
              && (|r| == |stack| <==> |stack| + 1 > maxStackDepth)
    // the depth bound is kept
    ensures |stack| <= maxStackDepth ==> |r| <= maxStackDepth
    // no two neighbouring entries become equal
    ensures NoAdjacentDuplicates(stack) ==> NoAdjacentDuplicates(r)
  {
    if stack != [] && stack[0] == snapshot then stack
    else
      var inserted := [snapshot] + stack;
      if |inserted| > maxStackDepth then inserted[..|inserted| - 1] else inserted
  }

  /** No entry equals the one right after it. */
  predicate NoAdjacentDuplicates(stack: seq<Entry>) {
    forall i :: 0 < i < |stack| ==> stack[i - 1] != stack[i]
  }

  /** The same insertion without any depth bound: the full history of distinct adjacent captures. */
  function Record(history: seq<Entry>, snapshot: Entry): seq<Entry> {
    if history != [] && history[0] == snapshot then history else [snapshot] + history
  }

  /** The first `n` entries, or all of them when there are fewer. */
  function Newest(s: seq<Entry>, n: nat): (r: seq<Entry>)
    ensures |r| == if |s| < n then |s| else n
    ensures r == s[..|r|]
  {
    if |s| <= n then s else s[..n]
  }

  /** A sequence of polls that each captured a snapshot, oldest first. */
  function PushAll(stack: seq<Entry>, snapshots: seq<Entry>, maxStackDepth: int): seq<Entry>
    decreases |snapshots|
  {
    if snapshots == [] then stack
    else PushAll(Push(stack, snapshots[0], maxStackDepth), snapshots[1..], maxStackDepth)
  }

  function RecordAll(history: seq<Entry>, snapshots: seq<Entry>): seq<Entry>
    decreases |snapshots|
  {
    if snapshots == [] then history
    else RecordAll(Record(history, snapshots[0]), snapshots[1..])
  }

  /** One bounded push keeps exactly the newest `maxStackDepth` entries of the unbounded history. */
  lemma PushKeepsNewest(history: seq<Entry>, snapshot: Entry, maxStackDepth: nat)
    ensures Push(Newest(history, maxStackDepth), snapshot, maxStackDepth)
         == Newest(Record(history, snapshot), maxStackDepth)
  {
    var stack := Newest(history, maxStackDepth);
    if history != [] && maxStackDepth >= 1 {
      assert stack[0] == history[0];
    }
    if !(history != [] && history[0] == snapshot) {
      var inserted := [snapshot] + stack;
      if |history| >= maxStackDepth {
        assert inserted[..|inserted| - 1] == ([snapshot] + history)[..maxStackDepth];
      }
    }
  }

  /**
   * Bounded growth: after any run of captures, starting from a stack within the
   * bound, the stack holds exactly the newest `maxStackDepth` entries of the
   * unbounded history, newest first.
   */
  lemma {:induction false} PushAllKeepsNewest(stack: seq<Entry>, snapshots: seq<Entry>, maxStackDepth: nat)
    requires |stack| <= maxStackDepth
    ensures PushAll(stack, snapshots, maxStackDepth) == Newest(RecordAll(stack, snapshots), maxStackDepth)
  {
    PushAllFromHistory(stack, snapshots, maxStackDepth);
  }

  lemma {:induction false} PushAllFromHistory(history: seq<Entry>, snapshots: seq<Entry>, maxStackDepth: nat)
    ensures PushAll(Newest(history, maxStackDepth), snapshots, maxStackDepth)
         == Newest(RecordAll(history, snapshots), maxStackDepth)
    decreases |snapshots|
  {
    if snapshots != [] {
      PushKeepsNewest(history, snapshots[0], maxStackDepth);
      PushAllFromHistory(Record(history, snapshots[0]), snapshots[1..], maxStackDepth);
    }
  }

  /** The most recent capture is on top after a run of captures. */
  lemma {:induction false} RecordAllTop(history: seq<Entry>, snapshots: seq<Entry>)
    requires snapshots != []
    ensures RecordAll(history, snapshots) != []
    ensures RecordAll(history, snapshots)[0] == snapshots[|snapshots| - 1]
    decreases |snapshots|
  {
    if |snapshots| > 1 {
      RecordAllTop(Record(history, snapshots[0]), snapshots[1..]);
    }
  }

  /** The history only grows, by one entry for each capture that differs from the one before. */
  lemma {:induction false} RecordAllKeepsOlder(history: seq<Entry>, snapshots: seq<Entry>)
    ensures |RecordAll(history, snapshots)| <= |history| + |snapshots|
    ensures |RecordAll(history, snapshots)| >= |history|
    ensures RecordAll(history, snapshots)[|RecordAll(history, snapshots)| - |history|..] == history
    decreases |snapshots|
  {
    if snapshots != [] {
      var h := Record(history, snapshots[0]);
      RecordAllKeepsOlder(h, snapshots[1..]);
      var r := RecordAll(h, snapshots[1..]);
      assert h[|h| - |history|..] == history;
      assert r[|r| - |history|..] == r[|r| - |h|..][|h| - |history|..];
    }
  }
}
