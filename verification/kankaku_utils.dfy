/**
 * touchpad/kankaku_utils.c: the link collection registry with four flags,
 * and the byte counter that every `kankaku_utils_malloc_or_die` and
 * `kankaku_utils_free` call keeps up to date.
 */
module KankakuUtils {
  import opened CTypes
  import opened HidRegistry

  // ---------------------------------------------------------------------------
  // Link collections
  // ---------------------------------------------------------------------------

  /** `kankaku_link_collection_info`; the `Has*` flags are C truth values. */
  datatype KankakuLinkCollectionInfo = KankakuLinkCollectionInfo(
    linkColId: u16,
    physicalRect: Rect,
    hasX: int32, hasY: int32, hasContactId: int32, hasTipSwitch: int32)

  /** The entry a lookup creates: the id and the four flags 0 (`PhysicalRect` zero-filled). */
  function NewKankakuLinkCollection(id: u16): (info: KankakuLinkCollectionInfo)
    ensures info.linkColId == id
    ensures info.hasX == info.hasY == info.hasContactId == info.hasTipSwitch == 0
  {
    KankakuLinkCollectionInfo(id, Rect(0, 0, 0, 0), 0, 0, 0, 0)
  }

  /** `kankaku_link_collection_info_list`; a `NULL` `Entries` is an empty array. */
  class KankakuLinkCollectionInfoList {
    var entries: array<KankakuLinkCollectionInfo>
    var size: nat

    ghost predicate Valid()
      reads this
    {
      size == entries.Length
    }

    /** The link collections, in order. */
    function Infos(): seq<KankakuLinkCollectionInfo>
      reads this, entries
    {
      entries[..]
    }

    /** `{.Entries = NULL, .Size = 0}` */
    constructor Empty()
      ensures Valid() && Infos() == [] && fresh(entries)
    {
      entries := new KankakuLinkCollectionInfo[0];
      size := 0;
    }
  }

  /** The keys of a link collection list. */
  function KankakuLinkIds(infos: seq<KankakuLinkCollectionInfo>): (ids: seq<u16>)
    ensures |ids| == |infos|
    ensures forall i :: 0 <= i < |infos| ==> ids[i] == infos[i].linkColId
  {
    seq(|infos|, i requires 0 <= i < |infos| => infos[i].linkColId)
  }

  /** What the lookup does to the entries: find the first entry with `id`, or append a new one. */
  function FindOrAddKankakuLink(infos: seq<KankakuLinkCollectionInfo>, id: u16): (seq<KankakuLinkCollectionInfo>, nat)
  {
    match FirstIndex(KankakuLinkIds(infos), id)
    case Some(i) => (infos, i)
    case None => (infos + [NewKankakuLinkCollection(id)], |infos|)
  }

  /**
   * The lookup follows the registry discipline on its ids, keeps the entries
   * it does not create, and creates the default entry.
   */
  lemma FindOrAddKankakuLinkIsLookup(infos: seq<KankakuLinkCollectionInfo>, id: u16)
    ensures var (after, idx) := FindOrAddKankakuLink(infos, id);
      var r := FindOrAppend(KankakuLinkIds(infos), id);
      KankakuLinkIds(after) == r.keys && idx == r.index &&
      after[..|infos|] == infos &&
      (idx == |infos| ==> after[idx] == NewKankakuLinkCollection(id))
  {
    var (after, idx) := FindOrAddKankakuLink(infos, id);
    if id !in KankakuLinkIds(infos) {
      assert KankakuLinkIds(after) == KankakuLinkIds(infos) + [id];
    }
  }

  /** A repeated id neither grows the list nor changes the index. */
  lemma FindOrAddKankakuLinkIdempotent(infos: seq<KankakuLinkCollectionInfo>, id: u16)
    ensures var (after, idx) := FindOrAddKankakuLink(infos, id);
      FindOrAddKankakuLink(after, id) == (after, idx)
  {
    FindOrAddKankakuLinkIsLookup(infos, id);
    FindOrAppendFinds(KankakuLinkIds(infos), id);
  }

  /**
   * `FindLinkCollectionInList`: the index of the first link collection with
   * `linkCollection`, or of a new default entry appended at the end. `Size`
   * is an `unsigned int`, so the list is assumed not to be full already.
   */
  method FindKankakuLinkCollectionInList(linkColInfoList: KankakuLinkCollectionInfoList, linkCollection: u16)
    returns (status: Status, foundLinkColIdx: u32)
    requires linkColInfoList.Valid() && linkColInfoList.size < ULONG_MAX
    modifies linkColInfoList
    ensures status == Returned(0) && linkColInfoList.Valid()
    ensures (linkColInfoList.Infos(), foundLinkColIdx as nat)
         == FindOrAddKankakuLink(old(linkColInfoList.Infos()), linkCollection)
    ensures linkColInfoList.entries == old(linkColInfoList.entries) || fresh(linkColInfoList.entries)
    ensures |linkColInfoList.Infos()| == |old(linkColInfoList.Infos())| ==>
      linkColInfoList.entries == old(linkColInfoList.entries)
  {
    ghost var before := linkColInfoList.Infos();
    foundLinkColIdx := ULONG_MAX;
    if linkColInfoList.entries.Length == 0 || linkColInfoList.size == 0 {
      assert KankakuLinkIds(before) == [];
      foundLinkColIdx := 0;
      linkColInfoList.size := 1;
      linkColInfoList.entries := new KankakuLinkCollectionInfo[1];
      linkColInfoList.entries[0] := NewKankakuLinkCollection(linkCollection);
      assert linkColInfoList.Infos() == [NewKankakuLinkCollection(linkCollection)];
      assert before + [NewKankakuLinkCollection(linkCollection)] == [NewKankakuLinkCollection(linkCollection)];
      return Returned(0), foundLinkColIdx;
    }
    var linkColIdx := 0;
    while linkColIdx < linkColInfoList.size
      invariant 0 <= linkColIdx <= linkColInfoList.size
      invariant foundLinkColIdx == ULONG_MAX
      invariant linkCollection !in KankakuLinkIds(before)[..linkColIdx]
    {
      if linkColInfoList.entries[linkColIdx].linkColId == linkCollection {
        foundLinkColIdx := linkColIdx;
        break;
      }
      assert KankakuLinkIds(before)[..linkColIdx + 1]
          == KankakuLinkIds(before)[..linkColIdx] + [KankakuLinkIds(before)[linkColIdx]];
      linkColIdx := linkColIdx + 1;
    }
    if foundLinkColIdx == ULONG_MAX {
      assert KankakuLinkIds(before)[..linkColIdx] == KankakuLinkIds(before);
      foundLinkColIdx := linkColInfoList.size;
      var newSize := foundLinkColIdx + 1;
      var tmpCollectionArray := new KankakuLinkCollectionInfo[newSize];
      for i := 0 to foundLinkColIdx
        modifies tmpCollectionArray
        invariant tmpCollectionArray[..i] == linkColInfoList.entries[..i]
      {
        tmpCollectionArray[i] := linkColInfoList.entries[i];
      }
      tmpCollectionArray[foundLinkColIdx] := NewKankakuLinkCollection(linkCollection);
      linkColInfoList.entries := tmpCollectionArray;
      linkColInfoList.size := newSize;
      assert linkColInfoList.Infos() == before + [NewKankakuLinkCollection(linkCollection)];
    }
    status := Returned(0);
  }

  // ---------------------------------------------------------------------------
  // Allocation accounting
  // ---------------------------------------------------------------------------

  /** `MAXIMUM_MALLOC_MEMORY`: 1 GiB. */
  const MAXIMUM_MALLOC_MEMORY: u64 := 1024 * 1024 * 1024
  /** `SIZE_T_MAX`, that is `(size_t)~0`. */
  const SIZE_T_MAX: u64 := 0xFFFF_FFFF_FFFF_FFFF

  /**
   * `kankaku_utils_malloc_or_die` on the counter: the outcome (`Returned(0)`
   * stands for the pointer handed back) and the new counter. `systemMallocOk`
   * says whether the C library's `malloc` returned a block.
   */
  function MallocAccount(mallocedMemory: u64, size: u64, systemMallocOk: bool): (Status, u64)
  {
    if SIZE_T_MAX - size < mallocedMemory then (Terminated, mallocedMemory)
    else
      var counter := mallocedMemory + size;
      if counter > MAXIMUM_MALLOC_MEMORY || !systemMallocOk then (Terminated, counter)
      else (Returned(0), counter)
  }

  /** `kankaku_utils_free` on the counter: the outcome and the new counter. */
  function FreeAccount(mallocedMemory: u64, size: u64): (Status, u64)
  {
    if size > mallocedMemory then (Terminated, mallocedMemory)
    else (Returned(0), mallocedMemory - size)
  }

  /**
   * An allocation that returns has added exactly `size` bytes and left the
   * counter within 1 GiB. While the counter is within 1 GiB, the overflow
   * guard only ever rejects what the cap rejects too: the call returns
   * exactly when the total stays within 1 GiB and `malloc` succeeds.
   */
  lemma MallocAccountBounds(mallocedMemory: u64, size: u64, systemMallocOk: bool)
    ensures var (status, counter) := MallocAccount(mallocedMemory, size, systemMallocOk);
      status.Returned? ==> counter == mallocedMemory + size <= MAXIMUM_MALLOC_MEMORY
    ensures mallocedMemory <= MAXIMUM_MALLOC_MEMORY ==>
      (MallocAccount(mallocedMemory, size, systemMallocOk).0.Returned? <==>
       mallocedMemory + size <= MAXIMUM_MALLOC_MEMORY && systemMallocOk)
  {
  }

  /** A free that returns has taken exactly `size` bytes off, so the counter never underflows. */
  lemma FreeAccountBounds(mallocedMemory: u64, size: u64)
    ensures FreeAccount(mallocedMemory, size).0.Returned? <==> size <= mallocedMemory
    ensures FreeAccount(mallocedMemory, size).0.Returned? ==>
      FreeAccount(mallocedMemory, size).1 + size == mallocedMemory
  {
  }

  /** Freeing what was just allocated restores the counter. */
  lemma MallocThenFree(mallocedMemory: u64, size: u64)
    requires MallocAccount(mallocedMemory, size, true).0.Returned?
    ensures FreeAccount(MallocAccount(mallocedMemory, size, true).1, size) == (Returned(0), mallocedMemory)
  {
  }

  /** One call into the allocator. */
  datatype MemoryCall = Malloc(size: u64, systemMallocOk: bool) | Free(size: u64)

  /** The outcome and counter after one call. */
  function Step(mallocedMemory: u64, call: MemoryCall): (Status, u64)
  {
    match call
    case Malloc(size, ok) => MallocAccount(mallocedMemory, size, ok)
    case Free(size) => FreeAccount(mallocedMemory, size)
  }

  /**
   * The counter after a run of calls, each made only if the previous one
   * returned; `None` once the process has ended.
   */
  function Trace(mallocedMemory: u64, calls: seq<MemoryCall>): Option<u64>
    decreases |calls|
  {
    if calls == [] then Some(mallocedMemory)
    else
      var (status, counter) := Step(mallocedMemory, calls[0]);
      if status.Terminated? then None else Trace(counter, calls[1..])
  }

  /** From the initial counter of 0, every run that is still alive has at most 1 GiB allocated. */
  lemma {:induction false} TraceWithinCap(mallocedMemory: u64, calls: seq<MemoryCall>)
    requires mallocedMemory <= MAXIMUM_MALLOC_MEMORY
    ensures Trace(mallocedMemory, calls).Some? ==> Trace(mallocedMemory, calls).value <= MAXIMUM_MALLOC_MEMORY
    decreases |calls|
  {
    if calls != [] {
      var (status, counter) := Step(mallocedMemory, calls[0]);
      if status.Returned? {
        match calls[0] {
          case Malloc(size, ok) => MallocAccountBounds(mallocedMemory, size, ok);
          case Free(size) => FreeAccountBounds(mallocedMemory, size);
        }
        TraceWithinCap(counter, calls[1..]);
      }
    }
  }

  /** The process-wide allocation counter (`static size_t malloced_memory`). */
  class MemoryAccounting {
    var mallocedMemory: u64

    /** The counter starts at 0. */
    constructor ()
      ensures mallocedMemory == 0
    {
      mallocedMemory := 0;
    }

    /**
     * `kankaku_utils_malloc_or_die`: ends the process when the request would
     * overflow `size_t`, takes the total past 1 GiB or `malloc` fails;
     * otherwise the counter has grown by `size`.
     */
    method MallocOrDie(size: u64, systemMallocOk: bool) returns (status: Status)
      modifies this
      ensures (status, mallocedMemory) == MallocAccount(old(mallocedMemory), size, systemMallocOk)
    {
      if SIZE_T_MAX - size < mallocedMemory {
        return Terminated;
      }
      mallocedMemory := mallocedMemory + size;
      if mallocedMemory > MAXIMUM_MALLOC_MEMORY {
        return Terminated;
      }
      if !systemMallocOk {
        return Terminated;
      }
      status := Returned(0);
    }

    /**
     * `kankaku_utils_free`: ends the process when asked to release more than
     * is counted; otherwise the counter has shrunk by `size`.
     */
    method Free(size: u64) returns (status: Status)
      modifies this
      ensures (status, mallocedMemory) == FreeAccount(old(mallocedMemory), size)
    {
      if size > mallocedMemory {
        return Terminated;
      }
      mallocedMemory := mallocedMemory - size;
      status := Returned(0);
    }
  }
}
