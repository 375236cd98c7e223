/** Per-game save-state slots in the sandbox: a blob file per slot, a sidecar with the frame and
    the save stamp, and an optional thumbnail. Stamps are integers. */
module SaveSlots {
  import opened Common

  type Bytes = seq<bv8>

  const SLOT_COUNT := 4

  datatype Key = Key(sha: string, slot: int)

  /** A blob file and its modification date, if the file system reports one. */
  datatype BlobFile = BlobFile(data: Bytes, modified: Option<int>)

  datatype Meta = Meta(frame: nat, savedAt: int)

  datatype Files = Files(blobs: map<Key, BlobFile>, metas: map<Key, Meta>, thumbs: map<Key, Bytes>)

  datatype SaveSlot = SaveSlot(savedAt: Option<int>, frame: Option<nat>, thumbnail: Option<Bytes>) {
    predicate IsEmpty() {
      savedAt.None?
    }
  }

  /** Which of the three file operations of a write or a clear succeed. */
  datatype Io = Io(blob: bool, meta: bool, thumb: bool)

  /** A slot without a blob is empty; otherwise the sidecar's stamp wins over the file date. */
  function SlotOf(f: Files, k: Key): SaveSlot {
    if k !in f.blobs then SaveSlot(None, None, None)
    else
      var thumb := if k in f.thumbs then Some(f.thumbs[k]) else None;
      if k in f.metas then SaveSlot(Some(f.metas[k].savedAt), Some(f.metas[k].frame), thumb)
      else SaveSlot(f.blobs[k].modified, None, thumb)
  }

  /** What a slot holds for the protocol: the blob and its save stamp. */
  datatype Copy = Copy(data: Bytes, stamp: int)

  function Local(f: Files, k: Key): (c: Option<Copy>)
    ensures c.None? <==> SlotOf(f, k).IsEmpty()
  {
    if SlotOf(f, k).IsEmpty() then None else Some(Copy(f.blobs[k].data, SlotOf(f, k).savedAt.value))
  }

  /** A write stamped `stamp` at clock time `now`. A failed blob write stops it with no effect;
      a failed sidecar or thumbnail operation is ignored. */
  function Stored(f: Files, k: Key, data: Bytes, frame: nat, stamp: int, thumb: Option<Bytes>, now: int,
                  io: Io): Files {
    if !io.blob then f
    else
      Files(f.blobs[k := BlobFile(data, Some(now))],
            if io.meta then f.metas[k := Meta(frame, stamp)] else f.metas,
            if !io.thumb then f.thumbs else if thumb.Some? then f.thumbs[k := thumb.value] else f.thumbs - {k})
  }

  function Cleared(f: Files, k: Key, io: Io): Files {
    Files(if io.blob then f.blobs - {k} else f.blobs,
          if io.meta then f.metas - {k} else f.metas,
          if io.thumb then f.thumbs - {k} else f.thumbs)
  }

  /** The stamp a write leaves: its own with its sidecar, else that of the sidecar left behind, or the
      clock's. */
  function StampLeft(f: Files, k: Key, stamp: int, now: int, io: Io): int {
    if io.meta then stamp else if k in f.metas then f.metas[k].savedAt else now
  }

  /** A write that succeeds leaves exactly the written copy, with the stamp left by its sidecar. */
  lemma StoredCopy(f: Files, k: Key, data: Bytes, frame: nat, stamp: int, thumb: Option<Bytes>, now: int, io: Io)
    ensures var g := Stored(f, k, data, frame, stamp, thumb, now, io);
      && (forall j :: j != k ==> Local(g, j) == Local(f, j) && SlotOf(g, j) == SlotOf(f, j))
      && (io.blob ==> Local(g, k) == Some(Copy(data, StampLeft(f, k, stamp, now, io))))
      && (io.blob ==> SlotOf(g, k) == SaveSlot(
            Some(StampLeft(f, k, stamp, now, io)),
            if io.meta then Some(frame) else if k in f.metas then Some(f.metas[k].frame) else None,
            if io.thumb then thumb else if k in f.thumbs then Some(f.thumbs[k]) else None))
      && (!io.blob ==> g == f)
  {
  }

  lemma ClearedCopy(f: Files, k: Key, io: Io)
    ensures var g := Cleared(f, k, io);
      && (forall j :: j != k ==> Local(g, j) == Local(f, j) && SlotOf(g, j) == SlotOf(f, j))
      && (io.blob ==> Local(g, k) == None && SlotOf(g, k) == SaveSlot(None, None, None))
      && (io == Io(true, true, true) ==> k !in g.blobs && k !in g.metas && k !in g.thumbs)
      && (io == Io(false, false, false) ==> g == f)
  {
  }

  class SaveStateManager {
    var blobs: map<Key, BlobFile>
    var metas: map<Key, Meta>
    var thumbs: map<Key, Bytes>

    ghost function View(): Files
      reads this
    {
      Files(blobs, metas, thumbs)
    }

    constructor (files: Files)
      ensures View() == files
    {
      blobs, metas, thumbs := files.blobs, files.metas, files.thumbs;
    }

    method Slot(k: Key) returns (s: SaveSlot)
      ensures s == SlotOf(View(), k)
    {
      if k !in blobs {
        return SaveSlot(None, None, None);
      }
      var savedAt, frame := blobs[k].modified, None;
      if k in metas {
        savedAt, frame := Some(metas[k].savedAt), Some(metas[k].frame);
      }
      s := SaveSlot(savedAt, frame, if k in thumbs then Some(thumbs[k]) else None);
    }

    method WriteFiles(k: Key, data: Bytes, frame: nat, stamp: int, thumb: Option<Bytes>, now: int, io: Io)
      requires io.blob
      modifies this
      ensures View() == Stored(old(View()), k, data, frame, stamp, thumb, now, io)
    {
      blobs := blobs[k := BlobFile(data, Some(now))];
      if io.meta {
        metas := metas[k := Meta(frame, stamp)];
      }
      if io.thumb {
        if thumb.Some? {
          thumbs := thumbs[k := thumb.value];
        } else {
          thumbs := thumbs - {k};
        }
      }
    }

    /** A local save: stamps "now". */
    method Write(data: Bytes, k: Key, frame: nat, thumb: Option<Bytes>, now: int, io: Io) returns (ok: bool)
      modifies this
      ensures ok == io.blob
      ensures View() == Stored(old(View()), k, data, frame, now, thumb, now, io)
    {
      if !io.blob {
        return false;
      }
      WriteFiles(k, data, frame, now, thumb, now, io);
      ok := true;
    }

    /** A slot pulled from the cloud: keeps the remote stamp. */
    method ImportRemote(data: Bytes, k: Key, frame: nat, savedAt: int, thumb: Option<Bytes>, now: int, io: Io)
      returns (ok: bool)
      modifies this
      ensures ok == io.blob
      ensures View() == Stored(old(View()), k, data, frame, savedAt, thumb, now, io)
    {
      if !io.blob {
        return false;
      }
      WriteFiles(k, data, frame, savedAt, thumb, now, io);
      ok := true;
    }

    method Clear(k: Key, io: Io)
      modifies this
      ensures View() == Cleared(old(View()), k, io)
    {
      if io.blob { blobs := blobs - {k}; }
      if io.meta { metas := metas - {k}; }
      if io.thumb { thumbs := thumbs - {k}; }
    }
  }
}
