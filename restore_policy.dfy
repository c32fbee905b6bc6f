/**
 * The restore delay policy of `pasteTopElement(pop:)`: the union of the types
 * of an entry's items decides how many times the base paste delay to wait.
 */
module RestorePolicy {
  import opened PasteboardItems

  /** The factor applied to the configured base paste delay. */
  datatype Multiplier = Half | One | Two

  /** Every type stored in any item of the entry, items taken in order. */
  function FlavorsOf(entry: seq<ItemData>): set<PasteboardType>
  {
    if entry == [] then {}
    else FlavorsOf(entry[..|entry| - 1]) + entry[|entry| - 1].dataDict.Keys
  }

  lemma {:induction false} FlavorsOfExactly(entry: seq<ItemData>)
    ensures forall t :: t in FlavorsOf(entry) <==> exists i :: 0 <= i < |entry| && t in entry[i].dataDict
  {
    if entry != [] {
      var front := entry[..|entry| - 1];
      FlavorsOfExactly(front);
      forall t | t in FlavorsOf(entry)
        ensures exists i :: 0 <= i < |entry| && t in entry[i].dataDict
      {
        if t !in entry[|entry| - 1].dataDict {
          assert t in FlavorsOf(front);
          var i :| 0 <= i < |front| && t in front[i].dataDict;
          assert entry[i] == front[i];
        }
      }
      forall t | exists i :: 0 <= i < |entry| && t in entry[i].dataDict
        ensures t in FlavorsOf(entry)
      {
        var i :| 0 <= i < |entry| && t in entry[i].dataDict;
        if i < |front| {
          assert front[i] == entry[i];
        }
      }
    }
  }

  /** The nested loops that build `allTypes`. */
  method UnionOfTypes(entry: seq<ItemData>) returns (allTypes: set<PasteboardType>)
    ensures allTypes == FlavorsOf(entry)
  {
    allTypes := {};
    for i := 0 to |entry|
      invariant allTypes == FlavorsOf(entry[..i])
    {
      var pending := entry[i].dataDict.Keys;
      while pending != {}
        invariant pending <= entry[i].dataDict.Keys
        invariant allTypes == FlavorsOf(entry[..i]) + (entry[i].dataDict.Keys - pending)
        decreases pending
      {
        var t :| t in pending;
        allTypes := allTypes + {t};
        pending := pending - {t};
      }
      assert entry[..i + 1][..i] == entry[..i];
    }
    assert entry[..|entry|] == entry;
  }

  /** True of a set with exactly one element `x`. */
  lemma SingletonSet(s: set<PasteboardType>, x: PasteboardType)
    ensures (|s| == 1 && x in s) <==> s == {x}
  {
    if |s| == 1 && x in s {
      assert |s - {x}| == 0;
      assert s - {x} == {};
    }
  }

  /**
   * The delay table, first match wins: plain text alone waits half the base
   * delay; rich text, HTML or an image among at most two types waits the base
   * delay; anything else waits twice the base delay.
   */
  function DelayMultiplier(allTypes: set<PasteboardType>): (m: Multiplier)
    ensures m == Half <==> allTypes == {PlainText}
    ensures m == One <==> && allTypes != {PlainText}
                          && |allTypes| <= 2
                          && (Rtf in allTypes || Html in allTypes || Tiff in allTypes)
    ensures |allTypes| > 2 ==> m == Two
    ensures allTypes == {} ==> m == Two
  {
    SingletonSet(allTypes, PlainText);
    var typeCount := |allTypes|;
    var hasRtfOrHtmlOrImage := Rtf in allTypes || Html in allTypes || Tiff in allTypes;
    var onlyPlainText := typeCount == 1 && PlainText in allTypes;
    if onlyPlainText then Half
    else if hasRtfOrHtmlOrImage && typeCount <= 2 then One
    else if typeCount > 2 then Two
    else Two
  }

  /**
   * An entry waits half the base delay exactly when its items hold plain text
   * and nothing else.
   */
  lemma HalfDelayIffOnlyPlainText(entry: seq<ItemData>)
    ensures DelayMultiplier(FlavorsOf(entry)) == Half
        <==> && (forall i :: 0 <= i < |entry| ==> entry[i].dataDict.Keys <= {PlainText})
             && (exists i :: 0 <= i < |entry| && PlainText in entry[i].dataDict)
  {
    FlavorsOfExactly(entry);
    var all := FlavorsOf(entry);
    if all == {PlainText} {
      forall i | 0 <= i < |entry|
        ensures entry[i].dataDict.Keys <= {PlainText}
      {
        forall t | t in entry[i].dataDict ensures t in all { }
      }
    }
    if (forall i :: 0 <= i < |entry| ==> entry[i].dataDict.Keys <= {PlainText})
       && (exists i :: 0 <= i < |entry| && PlainText in entry[i].dataDict) {
      forall t | t in all ensures t == PlainText {
        var i :| 0 <= i < |entry| && t in entry[i].dataDict;
      }
      assert all == {PlainText};
    }
  }

  /** Rows of the table on typical type sets. */
  lemma DelayTableExamples()
    ensures DelayMultiplier({PlainText}) == Half
    ensures DelayMultiplier({Rtf, Tiff}) == One
    ensures DelayMultiplier({PlainText, Rtf}) == One
    ensures DelayMultiplier({PlainText, Rtf, Html}) == Two
    ensures DelayMultiplier({Tiff}) == One
    ensures DelayMultiplier({"public.png"}) == Two
  {
    assert {Rtf, Tiff} != {PlainText} by { assert Rtf !in {PlainText}; }
    assert {PlainText, Rtf} != {PlainText} by { assert Rtf !in {PlainText}; }
    assert {Tiff} != {PlainText} by { assert Tiff !in {PlainText}; }
    assert {"public.png"} != {PlainText} by { assert "public.png" !in {PlainText}; }
  }
}
