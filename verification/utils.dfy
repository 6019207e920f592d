/**
 * Find-or-insert registries over C arrays (touchpad/src/utils.c, touchpad/src/utils.cc
 * and the device lookup of touchpad/kankaku_utils.c): HID devices are looked up by
 * name, link collections by `LinkColID`. A lookup returns the index of the first
 * entry with that key, or appends a default entry and returns its index.
 */
module HidRegistry {
  import opened CTypes

  // ---------------------------------------------------------------------------
  // The registry discipline on keys alone
  // ---------------------------------------------------------------------------

  /** The index of the first occurrence of `k` in `keys`, if any. */
  function FirstIndex<K(==)>(keys: seq<K>, k: K): (r: Option<nat>)
    ensures r.None? <==> k !in keys
    ensures r.Some? ==> r.value < |keys| && keys[r.value] == k && k !in keys[..r.value]
  {
    if |keys| == 0 then None
    else if keys[0] == k then Some(0)
    else match FirstIndex(keys[1..], k)
      case None => None
      case Some(i) =>
        assert keys[1..][..i] == keys[1..i + 1];
        Some(i + 1)
  }

  /** The keys after a lookup, and the index the lookup returns. */
  datatype Lookup<K> = Lookup(keys: seq<K>, index: nat)

  /** A lookup of `k`: its first index when present, otherwise `k` appended at the end. */
  function FindOrAppend<K(==)>(keys: seq<K>, k: K): Lookup<K>
  {
    match FirstIndex(keys, k)
    case Some(i) => Lookup(keys, i)
    case None => Lookup(keys + [k], |keys|)
  }

  /** The returned index holds `k`, and it is the first index that does. */
  lemma FindOrAppendFinds<K>(keys: seq<K>, k: K)
    ensures var r := FindOrAppend(keys, k);
      r.index < |r.keys| && r.keys[r.index] == k && FirstIndex(r.keys, k) == Some(r.index)
  {
    var r := FindOrAppend(keys, k);
    if k !in keys {
      var f := FirstIndex(r.keys, k);
      assert r.keys[..|keys|] == keys;
    }
  }

  /** The old keys stay in place; the list grows by one exactly when `k` was absent. */
  lemma FindOrAppendGrowth<K>(keys: seq<K>, k: K)
    ensures var r := FindOrAppend(keys, k);
      |keys| <= |r.keys| && r.keys[..|keys|] == keys &&
      (|r.keys| == |keys| <==> k in keys) && |r.keys| <= |keys| + 1
  {
  }

  /** A second lookup of the same key returns the same index and grows nothing. */
  lemma FindOrAppendIdempotent<K>(keys: seq<K>, k: K)
    ensures var r := FindOrAppend(keys, k); FindOrAppend(r.keys, k) == r
  {
    FindOrAppendFinds(keys, k);
  }

  /** No key occurs twice. */
  ghost predicate Distinct<K>(keys: seq<K>)
  {
    forall i, j :: 0 <= i < j < |keys| ==> keys[i] != keys[j]
  }

  /** Lookups keep the keys pairwise distinct. */
  lemma FindOrAppendKeepsDistinct<K>(keys: seq<K>, k: K)
    requires Distinct(keys)
    ensures Distinct(FindOrAppend(keys, k).keys)
  {
  }

  /** In a registry built only by lookups, every key names exactly its own index. */
  lemma {:induction false} LookupsKeepDistinct<K>(ks: seq<K>)
    ensures Distinct(Lookups([], ks))
  {
    if ks != [] {
      LookupsKeepDistinct(ks[..|ks| - 1]);
      FindOrAppendKeepsDistinct(Lookups([], ks[..|ks| - 1]), ks[|ks| - 1]);
    }
  }

  /** The keys after looking up each of `ks` in turn. */
  function Lookups<K(==)>(keys: seq<K>, ks: seq<K>): seq<K>
  {
    if ks == [] then keys else FindOrAppend(Lookups(keys, ks[..|ks| - 1]), ks[|ks| - 1]).keys
  }

  // ---------------------------------------------------------------------------
  // Link collections
  // ---------------------------------------------------------------------------

  /** `RECT` */
  datatype Rect = Rect(left: int32, top: int32, right: int32, bottom: int32)

  /** `HID_TOUCH_LINK_COL_INFO`; the `Has*` flags are C truth values. */
  datatype LinkCollectionInfo = LinkCollectionInfo(
    linkColId: u16,
    physicalRect: Rect,
    hasX: int32, hasY: int32, hasTipSwitch: int32, hasContactId: int32,
    hasConfidence: int32, hasWidth: int32, hasHeight: int32, hasPressure: int32)

  /**
   * The entry a lookup creates: the id, every flag 0. (`PhysicalRect` is
   * left as `malloc` returned it; the model zero-fills it.)
   */
  function NewLinkCollection(id: u16): (info: LinkCollectionInfo)
    ensures info.linkColId == id
    ensures info.hasX == info.hasY == info.hasTipSwitch == info.hasContactId == 0
    ensures info.hasConfidence == info.hasWidth == info.hasHeight == info.hasPressure == 0
  {
    LinkCollectionInfo(id, Rect(0, 0, 0, 0), 0, 0, 0, 0, 0, 0, 0, 0)
  }

  /** `HID_LINK_COL_INFO_LIST`; a `NULL` `Entries` is an empty array. */
  class LinkCollectionInfoList {
    var entries: array<LinkCollectionInfo>
    var size: nat

    ghost predicate Valid()
      reads this
    {
      size == entries.Length
    }

    /** The link collections, in order. */
    function Infos(): seq<LinkCollectionInfo>
      reads this, entries
    {
      entries[..]
    }

    /** `{NULL, 0}` */
    constructor Empty()
      ensures Valid() && Infos() == [] && fresh(entries)
    {
      entries := new LinkCollectionInfo[0];
      size := 0;
    }
  }

  /** The keys of a link collection list. */
  function LinkIds(infos: seq<LinkCollectionInfo>): (ids: seq<u16>)
    ensures |ids| == |infos|
    ensures forall i :: 0 <= i < |infos| ==> ids[i] == infos[i].linkColId
  {
    seq(|infos|, i requires 0 <= i < |infos| => infos[i].linkColId)
  }

  /**
   * What `FindLinkCollectionInList` does to the entries: the first entry with
   * `id` is found, or a fresh entry for `id` is appended.
   */
  function FindOrAddLink(infos: seq<LinkCollectionInfo>, id: u16): (seq<LinkCollectionInfo>, nat)
  {
    match FirstIndex(LinkIds(infos), id)
    case Some(i) => (infos, i)
    case None => (infos + [NewLinkCollection(id)], |infos|)
  }

  /**
   * The link lookup follows the registry discipline on its ids; the entries
   * it does not create are kept as they were, and the entry it creates is
   * the default one.
   */
  lemma FindOrAddLinkIsLookup(infos: seq<LinkCollectionInfo>, id: u16)
    ensures var (after, idx) := FindOrAddLink(infos, id);
      var r := FindOrAppend(LinkIds(infos), id);
      LinkIds(after) == r.keys && idx == r.index &&
      after[..|infos|] == infos &&
      (idx == |infos| ==> after[idx] == NewLinkCollection(id))
  {
    var (after, idx) := FindOrAddLink(infos, id);
    if id !in LinkIds(infos) {
      assert LinkIds(after) == LinkIds(infos) + [id];
    }
  }

  /** Looking the same id up again returns the same index and leaves the entries alone. */
  lemma FindOrAddLinkIdempotent(infos: seq<LinkCollectionInfo>, id: u16)
    ensures var (after, idx) := FindOrAddLink(infos, id);
      FindOrAddLink(after, id) == (after, idx)
  {
    var (after, idx) := FindOrAddLink(infos, id);
    FindOrAddLinkIsLookup(infos, id);
    FindOrAppendFinds(LinkIds(infos), id);
  }

  /**
   * `FindLinkCollectionInList`: the index of the first link collection with
   * `linkCollection`, or of a new default entry appended at the end. The list
   * is only reallocated when it grows. `Size` is an `unsigned int`, so the
   * list is assumed not to be full already.
   */
  method FindLinkCollectionInList(linkColInfoList: LinkCollectionInfoList, linkCollection: u16)
    returns (status: Status, foundLinkColIdx: u32)
    requires linkColInfoList.Valid() && linkColInfoList.size < ULONG_MAX
    modifies linkColInfoList
    ensures status == Returned(0) && linkColInfoList.Valid()
    ensures (linkColInfoList.Infos(), foundLinkColIdx as nat)
         == FindOrAddLink(old(linkColInfoList.Infos()), linkCollection)
    ensures linkColInfoList.entries == old(linkColInfoList.entries) || fresh(linkColInfoList.entries)
    ensures |linkColInfoList.Infos()| == |old(linkColInfoList.Infos())| ==>
      linkColInfoList.entries == old(linkColInfoList.entries)
  {
    ghost var before := linkColInfoList.Infos();
    foundLinkColIdx := ULONG_MAX;
    if linkColInfoList.entries.Length == 0 || linkColInfoList.size == 0 {
      assert LinkIds(before) == [];
      foundLinkColIdx := 0;
      linkColInfoList.size := 1;
      linkColInfoList.entries := new LinkCollectionInfo[1];
      linkColInfoList.entries[0] := NewLinkCollection(linkCollection);
      assert linkColInfoList.Infos() == [NewLinkCollection(linkCollection)];
      assert before + [NewLinkCollection(linkCollection)] == [NewLinkCollection(linkCollection)];
      return Returned(0), foundLinkColIdx;
    }
    var linkColIdx := 0;
    while linkColIdx < linkColInfoList.size
      invariant 0 <= linkColIdx <= linkColInfoList.size
      invariant foundLinkColIdx == ULONG_MAX
      invariant linkCollection !in LinkIds(before)[..linkColIdx]
    {
      if linkColInfoList.entries[linkColIdx].linkColId == linkCollection {
        foundLinkColIdx := linkColIdx;
        break;
      }
      assert LinkIds(before)[..linkColIdx + 1] == LinkIds(before)[..linkColIdx] + [LinkIds(before)[linkColIdx]];
      linkColIdx := linkColIdx + 1;
    }
    if foundLinkColIdx == ULONG_MAX {
      assert LinkIds(before)[..linkColIdx] == LinkIds(before);
      foundLinkColIdx := linkColInfoList.size;
      var newSize := foundLinkColIdx + 1;
      var tmpCollectionArray := new LinkCollectionInfo[newSize];
      for i := 0 to foundLinkColIdx
        modifies tmpCollectionArray
        invariant tmpCollectionArray[..i] == linkColInfoList.entries[..i]
      {
        tmpCollectionArray[i] := linkColInfoList.entries[i];
      }
      tmpCollectionArray[foundLinkColIdx] := NewLinkCollection(linkCollection);
      linkColInfoList.entries := tmpCollectionArray;
      linkColInfoList.size := newSize;
      assert linkColInfoList.Infos() == before + [NewLinkCollection(linkCollection)];
    }
    status := Returned(0);
  }

  // ---------------------------------------------------------------------------
  // Devices
  // ---------------------------------------------------------------------------

  /**
   * `HID_DEVICE_INFO`. The name and the preparsed report descriptor are
   * copies owned by the entry; `contactCountLinkCollection` is the link
   * collection holding the contact count, `USHORT_MAX` while none is known.
   */
  datatype HidDeviceInfo = HidDeviceInfo(
    name: seq<char>,
    cbName: u32,
    linkColInfoList: LinkCollectionInfoList,
    preparsedData: seq<byte>,
    cbPreparsedData: u32,
    contactCountLinkCollection: u16)

  /** `HID_DEVICE_INFO_LIST`; a `NULL` `Entries` is an empty array. */
  class HidDeviceInfoList {
    var entries: array<HidDeviceInfo>
    var size: nat

    ghost predicate Valid()
      reads this
    {
      size == entries.Length
    }

    /** The devices, in order. */
    function Devices(): seq<HidDeviceInfo>
      reads this, entries
    {
      entries[..]
    }

    /** `{NULL, 0}` */
    constructor Empty()
      ensures Valid() && Devices() == [] && fresh(entries)
    {
      entries := new HidDeviceInfo[0];
      size := 0;
    }
  }

  /** The keys of a device list. */
  function DeviceNames(devices: seq<HidDeviceInfo>): (names: seq<seq<char>>)
    ensures |names| == |devices|
    ensures forall i :: 0 <= i < |devices| ==> names[i] == devices[i].name
  {
    seq(|devices|, i requires 0 <= i < |devices| => devices[i].name)
  }

  /**
   * The device entry a lookup creates for `deviceName`: copies of the name
   * and of the preparsed data, a new empty link collection list, and
   * `contactCount` as its contact-count link collection.
   */
  ghost predicate IsNewDevice(d: HidDeviceInfo, deviceName: seq<char>, cbDeviceName: u32,
                              preparsedData: seq<byte>, cbPreparsedData: u32, contactCount: u16)
    reads d.linkColInfoList, d.linkColInfoList.entries
  {
    && d.name == deviceName && d.cbName == cbDeviceName
    && d.preparsedData == preparsedData && d.cbPreparsedData == cbPreparsedData
    && d.contactCountLinkCollection == contactCount
    && d.linkColInfoList.Valid() && d.linkColInfoList.Infos() == []
  }

  /**
   * The search-or-append body shared by the device lookups. The first entry
   * of an empty list gets `USHORT_MAX` as its contact-count link collection;
   * an entry appended to a non-empty list gets `appendedContactCount`.
   */
  method FindOrAddDevice(hidInfoList: HidDeviceInfoList, deviceName: seq<char>, cbDeviceName: u32,
                         preparsedData: seq<byte>, cbPreparsedData: u32, appendedContactCount: u16)
    returns (status: Status, foundHidIndex: u32)
    requires hidInfoList.Valid() && hidInfoList.size < ULONG_MAX
    modifies hidInfoList
    ensures status == Returned(0) && hidInfoList.Valid()
    ensures var r := FindOrAppend(DeviceNames(old(hidInfoList.Devices())), deviceName);
      DeviceNames(hidInfoList.Devices()) == r.keys && foundHidIndex as nat == r.index
    ensures hidInfoList.Devices()[..old(hidInfoList.size)] == old(hidInfoList.Devices())
    ensures foundHidIndex as nat == old(hidInfoList.size) ==>
      var d := hidInfoList.Devices()[foundHidIndex];
      fresh(d.linkColInfoList) && fresh(d.linkColInfoList.entries) &&
      IsNewDevice(d, deviceName, cbDeviceName, preparsedData, cbPreparsedData,
                  if old(hidInfoList.size) == 0 then USHORT_MAX else appendedContactCount)
    ensures hidInfoList.entries == old(hidInfoList.entries) || fresh(hidInfoList.entries)
    ensures |hidInfoList.Devices()| == |old(hidInfoList.Devices())| ==> hidInfoList.entries == old(hidInfoList.entries)
  {
    ghost var before := hidInfoList.Devices();
    foundHidIndex := ULONG_MAX;
    var hidInfoArraySize := hidInfoList.size;
    var hidInfoArray := hidInfoList.entries;
    if hidInfoArray.Length == 0 || hidInfoArraySize == 0 {
      hidInfoArraySize := 1;
      foundHidIndex := 0;
      var links := new LinkCollectionInfoList.Empty();
      var first := HidDeviceInfo(deviceName, cbDeviceName, links, preparsedData, cbPreparsedData, USHORT_MAX);
      hidInfoArray := new HidDeviceInfo[1](_ => first);
      assert hidInfoArray[..] == [first];
      assert DeviceNames(before) == [];
    } else {
      var touchpadIndex := 0;
      while touchpadIndex < hidInfoArraySize
        invariant 0 <= touchpadIndex <= hidInfoArraySize
        invariant foundHidIndex == ULONG_MAX
        invariant deviceName !in DeviceNames(before)[..touchpadIndex]
      {
        if hidInfoArray[touchpadIndex].name == deviceName {
          foundHidIndex := touchpadIndex;
          break;
        }
        assert DeviceNames(before)[..touchpadIndex + 1]
            == DeviceNames(before)[..touchpadIndex] + [DeviceNames(before)[touchpadIndex]];
        touchpadIndex := touchpadIndex + 1;
      }
      if foundHidIndex == ULONG_MAX {
        assert DeviceNames(before)[..touchpadIndex] == DeviceNames(before);
      }
    }

    if foundHidIndex == ULONG_MAX {
      foundHidIndex := hidInfoArraySize;
      hidInfoArraySize := foundHidIndex + 1;
      var links := new LinkCollectionInfoList.Empty();
      var added := HidDeviceInfo(deviceName, cbDeviceName, links, preparsedData, cbPreparsedData, appendedContactCount);
      var tmpHidInfoArray := new HidDeviceInfo[hidInfoArraySize](_ => added);
      for hidIndex := 0 to foundHidIndex
        modifies tmpHidInfoArray
        invariant tmpHidInfoArray[..hidIndex] == hidInfoArray[..hidIndex]
        invariant tmpHidInfoArray[foundHidIndex] == added
      {
        tmpHidInfoArray[hidIndex] := hidInfoArray[hidIndex];
      }
      hidInfoArray := tmpHidInfoArray;
      assert hidInfoArray[..] == before + [added];
      assert DeviceNames(hidInfoArray[..]) == DeviceNames(before) + [deviceName];
    }

    hidInfoList.entries := hidInfoArray;
    hidInfoList.size := hidInfoArraySize;
    status := Returned(0);
  }

  /**
   * `FindInputDeviceInList` as written: the entry it appends to a non-empty
   * list never has `ContactCountLinkCollection` assigned, so it holds whatever
   * `leftover` value the fresh memory held.
   */
  method FindInputDeviceInListAsWritten(hidInfoList: HidDeviceInfoList, deviceName: seq<char>, cbDeviceName: u32,
                                        preparsedData: seq<byte>, cbPreparsedData: u32, leftover: u16)
    returns (status: Status, foundHidIndex: u32)
    requires hidInfoList.Valid() && hidInfoList.size < ULONG_MAX
    modifies hidInfoList
    ensures status == Returned(0) && hidInfoList.Valid()
    ensures var r := FindOrAppend(DeviceNames(old(hidInfoList.Devices())), deviceName);
      DeviceNames(hidInfoList.Devices()) == r.keys && foundHidIndex as nat == r.index
    ensures hidInfoList.Devices()[..old(hidInfoList.size)] == old(hidInfoList.Devices())
    ensures foundHidIndex as nat == old(hidInfoList.size) ==>
      var d := hidInfoList.Devices()[foundHidIndex];
      fresh(d.linkColInfoList) &&
      IsNewDevice(d, deviceName, cbDeviceName, preparsedData, cbPreparsedData,
                  if old(hidInfoList.size) == 0 then USHORT_MAX else leftover)
  {
    status, foundHidIndex := FindOrAddDevice(hidInfoList, deviceName, cbDeviceName, preparsedData, cbPreparsedData, leftover);
  }

  /**
   * `FindInputDeviceInList` as intended: every entry it creates starts with no
   * known contact-count link collection (`USHORT_MAX`), which is what the
   * input handler tests before reading the contact count.
   */
  method FindInputDeviceInList(hidInfoList: HidDeviceInfoList, deviceName: seq<char>, cbDeviceName: u32,
                               preparsedData: seq<byte>, cbPreparsedData: u32)
    returns (status: Status, foundHidIndex: u32)
    requires hidInfoList.Valid() && hidInfoList.size < ULONG_MAX
    modifies hidInfoList
    ensures status == Returned(0) && hidInfoList.Valid()
    ensures var r := FindOrAppend(DeviceNames(old(hidInfoList.Devices())), deviceName);
      DeviceNames(hidInfoList.Devices()) == r.keys && foundHidIndex as nat == r.index
    ensures hidInfoList.Devices()[..old(hidInfoList.size)] == old(hidInfoList.Devices())
    ensures foundHidIndex as nat == old(hidInfoList.size) ==>
      var d := hidInfoList.Devices()[foundHidIndex];
      fresh(d.linkColInfoList) &&
      IsNewDevice(d, deviceName, cbDeviceName, preparsedData, cbPreparsedData, USHORT_MAX)
    ensures hidInfoList.entries == old(hidInfoList.entries) || fresh(hidInfoList.entries)
    ensures |hidInfoList.Devices()| == |old(hidInfoList.Devices())| ==> hidInfoList.entries == old(hidInfoList.entries)
  {
    status, foundHidIndex := FindOrAddDevice(hidInfoList, deviceName, cbDeviceName, preparsedData, cbPreparsedData, USHORT_MAX);
  }

  /**
   * Registering a touchpad and then a second one with the lookup as written:
   * the second entry's contact-count link collection is the leftover value
   * (7 here), not `USHORT_MAX`, so the handler would read the contact count
   * from link collection 7.
   */
  method UnsetContactCountExample() returns (second: HidDeviceInfo)
    ensures second.name == "touchpad-2" && second.contactCountLinkCollection == 7
  {
    var list := new HidDeviceInfoList.Empty();
    var _, i := FindInputDeviceInListAsWritten(list, "touchpad-1", 22, [], 0, 7);
    var _, j := FindInputDeviceInListAsWritten(list, "touchpad-2", 22, [], 0, 7);
    assert DeviceNames(list.Devices())[j] == "touchpad-2";
    second := list.Devices()[j];
  }

  /** The same two registrations with the intended lookup leave `USHORT_MAX` in the second entry. */
  method ContactCountExample() returns (second: HidDeviceInfo)
    ensures second.name == "touchpad-2" && second.contactCountLinkCollection == USHORT_MAX
  {
    var list := new HidDeviceInfoList.Empty();
    var _, i := FindInputDeviceInList(list, "touchpad-1", 22, [], 0);
    var _, j := FindInputDeviceInList(list, "touchpad-2", 22, [], 0);
    assert DeviceNames(list.Devices())[j] == "touchpad-2";
    second := list.Devices()[j];
  }
}
