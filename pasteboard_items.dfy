/**
 * One pasteboard item as the clipboard engine captures it (`PasteboardItemData`)
 * and as the platform presents it (`NSPasteboardItem`, here a value).
 */
module PasteboardItems {
  import opened Wrappers

  /** A pasteboard type identifier, the raw value of `NSPasteboard.PasteboardType`. */
  type PasteboardType = string

  /** The raw payload of one type. */
  type Bytes = seq<bv8>

  /** The four types the engine looks at by name. */
  const PlainText: PasteboardType := "public.utf8-plain-text"
  const Rtf: PasteboardType := "public.rtf"
  const Html: PasteboardType := "public.html"
  const Tiff: PasteboardType := "public.tiff"

  /**
   * A platform pasteboard item: the types it advertises, in order, and the data
   * of every type whose data can be read. An advertised type that is missing
   * from `data` is one for which reading yields nothing.
   */
  datatype PlatformItem = PlatformItem(types: seq<PasteboardType>, data: map<PasteboardType, Bytes>)
  {
    /** `data(forType:)`: the type's data, or none when it cannot be read. */
    function DataForType(t: PasteboardType): Option<Bytes> {
      if t in data then Some(data[t]) else None
    }

    /** `setData(_:forType:)`: stores the data and advertises the type once. */
    function SetData(bytes: Bytes, t: PasteboardType): (r: PlatformItem)
      ensures r.data == data[t := bytes]
      ensures forall u :: u in r.types <==> u in types || u == t
      ensures NoDuplicates(types) ==> NoDuplicates(r.types)
    {
      PlatformItem(if t in types then types else types + [t], data[t := bytes])
    }
  }

  predicate NoDuplicates<T(==)>(s: seq<T>) {
    forall i, j :: 0 <= i < j < |s| ==> s[i] != s[j]
  }

  /** `PasteboardItemData`: a map from type to data; `==` is map equality, so order plays no part. */
  datatype ItemData = ItemData(dataDict: map<PasteboardType, Bytes>)

  /** The dictionary `init(item:)` has built after visiting `types` in order. */
  function CaptureTypes(types: seq<PasteboardType>, data: map<PasteboardType, Bytes>): map<PasteboardType, Bytes>
  {
    if types == [] then map[]
    else
      var dict := CaptureTypes(types[..|types| - 1], data);
      var t := types[|types| - 1];
      if t in data then dict[t := data[t]] else dict
  }

  lemma {:induction false} CaptureTypesExactly(types: seq<PasteboardType>, data: map<PasteboardType, Bytes>)
    ensures forall t :: t in CaptureTypes(types, data) <==> t in types && t in data
    ensures forall t :: t in CaptureTypes(types, data) ==> CaptureTypes(types, data)[t] == data[t]
  {
    if types != [] {
      var front := types[..|types| - 1];
      CaptureTypesExactly(front, data);
      assert types == front + [types[|types| - 1]];
      assert forall t :: t in types <==> t in front || t == types[|types| - 1];
    }
  }

  /** The value `PasteboardItemData(item:)` produces. */
  function Captured(item: PlatformItem): (d: ItemData)
    ensures forall t :: t in d.dataDict <==> t in item.types && t in item.data
    ensures forall t :: t in d.dataDict ==> d.dataDict[t] == item.data[t]
  {
    CaptureTypesExactly(item.types, item.data);
    ItemData(CaptureTypes(item.types, item.data))
  }

  /** `init(item:)`: visits the advertised types in order and keeps those whose data is readable. */
  method Capture(item: PlatformItem) returns (d: ItemData)
    ensures d == Captured(item)
  {
    var dict: map<PasteboardType, Bytes> := map[];
    for i := 0 to |item.types|
      invariant dict == CaptureTypes(item.types[..i], item.data)
    {
      var t := item.types[i];
      match item.DataForType(t)
      case Some(bytes) =>
        dict := dict[t := bytes];
      case None =>
      assert item.types[..i + 1][..i] == item.types[..i];
    }
    assert item.types[..|item.types|] == item.types;
    d := ItemData(dict);
  }

  /** Capture ignores the order in which the platform lists the types, and repeats. */
  lemma CaptureIgnoresTypeOrder(p: PlatformItem, q: PlatformItem)
    requires p.data == q.data
    requires forall t :: t in p.types <==> t in q.types
    ensures Captured(p) == Captured(q)
  {
    var dp, dq := Captured(p).dataDict, Captured(q).dataDict;
    assert dp.Keys == dq.Keys;
  }

  /** `p` is a writable item holding exactly the pairs of `d`. */
  ghost predicate Carries(p: PlatformItem, d: ItemData) {
    && p.data == d.dataDict
    && (forall t :: t in p.types <==> t in d.dataDict)
    && NoDuplicates(p.types)
  }

  /** `toPasteboardItem()`: sets every stored (type, data) pair on a fresh item, in no particular order. */
  method ToPasteboardItem(d: ItemData) returns (p: PlatformItem)
    ensures Carries(p, d)
  {
    p := PlatformItem([], map[]);
    var pending := d.dataDict.Keys;
    while pending != {}
      invariant pending <= d.dataDict.Keys
      invariant forall t :: t in p.data <==> t in d.dataDict && t !in pending
      invariant forall t :: t in p.data ==> p.data[t] == d.dataDict[t]
      invariant forall t :: t in p.types <==> t in p.data
      invariant NoDuplicates(p.types)
      decreases pending
    {
      var t :| t in pending;
      p := p.SetData(d.dataDict[t], t);
      pending := pending - {t};
    }
  }

  /** Capturing an item written from `d` gives back `d`. */
  lemma RoundTrip(p: PlatformItem, d: ItemData)
    requires Carries(p, d)
    ensures Captured(p) == d
  {
    assert Captured(p).dataDict.Keys == d.dataDict.Keys;
  }

  /** The snapshot of a whole pasteboard: `pasteboardItems.map { PasteboardItemData(item: $0) }`. */
  function Snapshot(items: seq<PlatformItem>): (s: seq<ItemData>)
    ensures |s| == |items|
    ensures forall i :: 0 <= i < |items| ==> s[i] == Captured(items[i])
  {
    seq(|items|, i requires 0 <= i < |items| => Captured(items[i]))
  }

  method CaptureAll(items: seq<PlatformItem>) returns (snapshot: seq<ItemData>)
    ensures snapshot == Snapshot(items)
  {
    snapshot := [];
    for i := 0 to |items|
      invariant snapshot == Snapshot(items[..i])
    {
      var d := Capture(items[i]);
      snapshot := snapshot + [d];
    }
    assert items[..|items|] == items;
  }

  /** `ps` are writable items holding the entries of `entry`, in order. */
  ghost predicate CarriesAll(ps: seq<PlatformItem>, entry: seq<ItemData>) {
    |ps| == |entry| && forall i :: 0 <= i < |ps| ==> Carries(ps[i], entry[i])
  }

  /** `entry.map { $0.toPasteboardItem() }`. */
  method ToPasteboardItems(entry: seq<ItemData>) returns (ps: seq<PlatformItem>)
    ensures CarriesAll(ps, entry)
  {
    ps := [];
    for i := 0 to |entry|
      invariant CarriesAll(ps, entry[..i])
    {
      var p := ToPasteboardItem(entry[i]);
      ps := ps + [p];
    }
    assert entry[..|entry|] == entry;
  }

  /** Reading back what was written from an entry gives the entry itself. */
  lemma {:induction false} SnapshotRoundTrip(ps: seq<PlatformItem>, entry: seq<ItemData>)
    requires CarriesAll(ps, entry)
    ensures Snapshot(ps) == entry
  {
    forall i | 0 <= i < |ps|
      ensures Snapshot(ps)[i] == entry[i]
    {
      RoundTrip(ps[i], entry[i]);
    }
  }

  /**
   * The text of type `t`, decoded: present only when the type is stored, decoding
   * succeeds and the text is not empty.
   */
  function DecodedText(d: ItemData, t: PasteboardType, decode: Bytes -> Option<string>): Option<string>
  {
    if t in d.dataDict && decode(d.dataDict[t]).Some? && decode(d.dataDict[t]).value != []
    then decode(d.dataDict[t])
    else None
  }

  /**
   * `displayString`: plain text first, then RTF, otherwise none. `utf8` stands for
   * `String(data:encoding: .utf8)` and `rtf` for the string of an
   * `NSAttributedString` read as RTF; both are partial decoders the model does not open.
   */
  function DisplayString(d: ItemData, utf8: Bytes -> Option<string>, rtf: Bytes -> Option<string>): (r: Option<string>)
    ensures r.Some? ==> r.value != []
    ensures r.Some? ==>
              || (PlainText in d.dataDict && r == utf8(d.dataDict[PlainText]))
              || (Rtf in d.dataDict && r == rtf(d.dataDict[Rtf]))
    ensures DecodedText(d, PlainText, utf8).Some? ==> r == DecodedText(d, PlainText, utf8)
    ensures r.None? <==> DecodedText(d, PlainText, utf8).None? && DecodedText(d, Rtf, rtf).None?
  {
    var plain := DecodedText(d, PlainText, utf8);
    if plain.Some? then plain else DecodedText(d, Rtf, rtf)
  }

  /** Only the plain-text and RTF entries decide the preview. */
  lemma PreviewIgnoresOtherTypes(d: ItemData, t: PasteboardType, bytes: Bytes,
                                 utf8: Bytes -> Option<string>, rtf: Bytes -> Option<string>)
    requires t != PlainText && t != Rtf
    ensures DisplayString(ItemData(d.dataDict[t := bytes]), utf8, rtf) == DisplayString(d, utf8, rtf)
  {
  }
}
