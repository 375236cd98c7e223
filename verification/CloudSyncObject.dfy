/** The cloud synchroniser's mutable object. Each method is one step of the main actor or of a
    detached import; `uploads`, `pulls` and `deletes` stand for the runtime's suspended tasks. */
module CloudSyncObject {
  import opened Common
  import opened SaveSlots
  import opened CloudSync

  class CloudSaveStateSync {
    const saveStates: SaveStateManager
    var states: map<int, Status>
    var accountAvailable: bool
    var enabled: bool
    var currentSha: Option<string>
    var uploads: map<nat, Upload>
    var pulls: map<nat, Pull>
    var deletes: map<nat, Key>
    var nextTask: nat

    ghost function View(): Device
      reads this, saveStates
    {
      Device(saveStates.View(), states, currentSha, enabled, accountAvailable, uploads, pulls, deletes, nextTask)
    }

    constructor (saveStates: SaveStateManager, enabled: bool)
      ensures this.saveStates == saveStates
      ensures View() == Device(saveStates.View(), map[], None, enabled, false, map[], map[], map[], 0)
      ensures FreshIds(View()) && StatusesBacked(View())
    {
      this.saveStates := saveStates;
      this.enabled := enabled;
      states, accountAvailable, currentSha := map[], false, None;
      uploads, pulls, deletes, nextTask := map[], map[], map[], 0;
    }

    method SpawnPull(p: Pull)
      modifies this`pulls, this`nextTask
      ensures View() == Spawn(old(View()), p)
    {
      pulls := pulls[nextTask := p];
      nextTask := nextTask + 1;
    }

    method SeedLocalStates(sha: string)
      modifies this`states
      ensures View() == Seeded(old(View()), sha)
    {
      hide SlotOf, Local;
      ghost var before := states;
      var slot := 0;
      while slot < SLOT_COUNT
        invariant 0 <= slot <= SLOT_COUNT
        invariant forall s :: s in states <==>
          (if 0 <= s < slot then Local(saveStates.View(), Key(sha, s)).Some? else s in before)
        invariant forall s :: s in states ==> states[s] == (if 0 <= s < slot then LocalOnly else before[s])
      {
        var local := saveStates.Slot(Key(sha, slot));
        if local.IsEmpty() {
          states := states - {slot};
        } else {
          states := states[slot := LocalOnly];
        }
        slot := slot + 1;
      }
      assert states == SeededStates(before, saveStates.View(), sha);
    }

    method SetCurrentGame(sha: Option<string>)
      modifies this
      ensures View() == Apply(old(View()), Open(sha))
    {
      currentSha := sha;
      states := map[];
      if sha.None? || !enabled {
        return;
      }
      SeedLocalStates(sha.value);
      SpawnPull(Queued(sha.value));
    }

    /** The app model's save: write the slot, then start its upload. */
    method SaveSlot(slot: int, data: Bytes, frame: nat, thumb: Option<Bytes>, now: int, io: Io)
      modifies this, saveStates
      ensures View() == Apply(old(View()), Save(slot, data, frame, thumb, now, io))
    {
      if currentSha.None? {
        return;
      }
      var k := Key(currentSha.value, slot);
      var _ := saveStates.Write(data, k, frame, thumb, now, io);
      if !enabled {
        return;
      }
      states := states[slot := Uploading];
      uploads := uploads[nextTask := Asking(k)];
      nextTask := nextTask + 1;
    }

    /** The app model's delete: clear the slot, then start removing its record. */
    method DeleteSlot(slot: int, io: Io)
      modifies this, saveStates
      ensures View() == Apply(old(View()), Clear(slot, io))
    {
      if currentSha.None? {
        return;
      }
      var k := Key(currentSha.value, slot);
      saveStates.Clear(k, io);
      states := states - {slot};
      if !enabled {
        return;
      }
      deletes := deletes[nextTask := k];
      nextTask := nextTask + 1;
    }

    method SetEnabled(on: bool)
      modifies this
      ensures View() == Apply(old(View()), Enable(on))
    {
      if on == enabled {
        return;
      }
      enabled := on;
      SpawnPull(Toggled);
    }

    /** The end of an upload task; `uploadedAt` is the stamp the store took, if it took one. */
    method CompleteUpload(t: nat, uploadedAt: Option<int>)
      requires t in uploads
      modifies this`states, this`uploads
      ensures View() == Completed(old(View()), t, uploadedAt)
    {
      hide SlotOf;
      var k := uploads[t].key;
      uploads := uploads - {t};
      if currentSha != Some(k.sha) {
        return;
      }
      var meta := saveStates.Slot(k);
      if meta.IsEmpty() {
        states := states - {k.slot};
        return;
      }
      if uploadedAt.Some? && meta.savedAt.value == uploadedAt.value {
        states := states[k.slot := Synced];
      } else {
        states := states[k.slot := LocalOnly];
      }
    }

    method UploadAccountAnswered(t: nat, available: bool)
      modifies this
      ensures View() == Apply(old(View()), UploadAccount(t, available))
    {
      if t !in uploads || !uploads[t].Asking? {
        return;
      }
      accountAvailable := available;
      if !available {
        CompleteUpload(t, None);
        return;
      }
      var k := uploads[t].key;
      var meta := saveStates.Slot(k);
      if meta.IsEmpty() {
        CompleteUpload(t, None);
        return;
      }
      var record := Record(meta.savedAt, meta.frame.GetOr(0), Readable(saveStates.blobs[k].data), meta.thumbnail);
      uploads := uploads[t := Sending(k, record, meta.savedAt.value)];
    }

    method UploadStoreAnswered(t: nat, ok: bool)
      modifies this
      ensures View() == Apply(old(View()), UploadAnswer(t, ok))
    {
      hide Completed;
      if t !in uploads || !uploads[t].Sending? {
        return;
      }
      CompleteUpload(t, if ok then Some(uploads[t].stamp) else None);
    }

    method StartReconcile(t: nat)
      modifies this
      ensures View() == Apply(old(View()), PullStart(t))
    {
      if t !in pulls || !pulls[t].Queued? {
        return;
      }
      if enabled {
        pulls := pulls[t := AwaitingAccount(pulls[t].sha)];
      } else {
        pulls := pulls - {t};
      }
    }

    method ReconcileAccountAnswered(t: nat, available: bool)
      modifies this
      ensures View() == Apply(old(View()), PullAccount(t, available))
    {
      hide SeededStates;
      if t !in pulls {
        return;
      }
      match pulls[t]
      case Toggled =>
        accountAvailable := available;
        if currentSha.Some? && enabled {
          SeedLocalStates(currentSha.value);
          pulls := pulls[t := AwaitingAccount(currentSha.value)];
        } else {
          if !enabled {
            states := map[];
          }
          pulls := pulls - {t};
        }
      case AwaitingAccount(sha) =>
        accountAvailable := available;
        if available {
          pulls := pulls[t := AwaitingRecords(sha)];
        } else {
          states := map slot | slot in states :: Unavailable;
          pulls := pulls - {t};
        }
      case _ =>
    }

    method RecordsFetched(t: nat, results: Option<map<int, Fetched>>)
      modifies this
      ensures View() == Apply(old(View()), PullRecords(t, results))
    {
      if t !in pulls || !pulls[t].AwaitingRecords? {
        return;
      }
      if results.None? {
        pulls := pulls - {t};
      } else {
        pulls := pulls[t := Applying(pulls[t].sha, results.value)];
      }
    }

    /** One turn of the result loop, up to the import's suspension. */
    method HandleResult(t: nat, slot: int)
      modifies this`pulls, this`states
      ensures View() == Apply(old(View()), PullNext(t, slot))
    {
      hide SlotOf;
      if t !in pulls || !pulls[t].Applying? || slot !in pulls[t].todo {
        return;
      }
      var Applying(sha, todo) := pulls[t];
      if currentSha != Some(sha) {
        pulls := pulls - {t};
        return;
      }
      var localMeta := saveStates.Slot(Key(sha, slot));
      match todo[slot]
      case NotFound =>
        pulls := pulls[t := Applying(sha, todo - {slot})];
        if localMeta.IsEmpty() {
          states := states - {slot};
        } else {
          states := states[slot := LocalOnly];
        }
      case Found(record) =>
        if localMeta.IsEmpty() || record.savedAt.GetOr(DISTANT_PAST) > localMeta.savedAt.value {
          if record.blob.Missing? {
            pulls := pulls[t := Applying(sha, todo - {slot})];
          } else {
            pulls := pulls[t := Importing(sha, slot, record, todo - {slot})];
          }
        } else {
          states := states[slot := Synced];
          pulls := pulls[t := Applying(sha, todo - {slot})];
        }
    }

    /** The detached import: reads the downloaded blob and writes the slot. */
    method ImportBlob(t: nat, now: int, io: Io)
      modifies this`pulls, saveStates
      ensures View() == Apply(old(View()), PullWrite(t, now, io))
    {
      if t !in pulls || !pulls[t].Importing? {
        return;
      }
      var Importing(sha, slot, record, todo) := pulls[t];
      var ok := false;
      if record.blob.Readable? {
        var frame := if record.frame >= 0 then record.frame else 0;
        ok := saveStates.ImportRemote(record.blob.data, Key(sha, slot), frame,
          record.savedAt.GetOr(DISTANT_PAST), record.thumb, now, io);
      }
      pulls := pulls[t := Imported(sha, slot, ok, todo)];
    }

    method ImportReturned(t: nat)
      modifies this`pulls, this`states
      ensures View() == Apply(old(View()), PullDone(t))
    {
      if t !in pulls || !pulls[t].Imported? {
        return;
      }
      var Imported(sha, slot, ok, todo) := pulls[t];
      pulls := pulls[t := Applying(sha, todo)];
      if currentSha != Some(sha) {
        return;
      }
      states := states[slot := if ok then Synced else LocalOnly];
    }

    /** One result with nothing in between. */
    method HandleWholeResult(t: nat, slot: int, now: int, io: Io)
      modifies this`pulls, this`states, saveStates
      ensures View() == SlotReconciled(old(View()), t, slot, now, io)
    {
      hide Local, NextResult, ImportWritten, ImportDone;
      HandleResult(t, slot);
      if t in pulls && pulls[t].Importing? {
        ImportBlob(t, now, io);
        ImportReturned(t);
      }
    }

    /** A whole result loop with nothing in between, the results coming in `order`: every fetched
        slot ends merged, every other slot is untouched. */
    method HandleAllResults(t: nat, order: seq<int>, now: int, io: int -> Io)
      requires t in pulls && pulls[t].Applying? && currentSha == Some(pulls[t].sha)
      requires NoRepeats(order) && forall s :: s in order <==> s in pulls[t].todo
      modifies this`pulls, this`states, saveStates
      ensures View() == ReconciledInOrder(old(View()), t, order, now, io)
      ensures forall s :: s in order ==>
        Local(View().files, Key(old(pulls)[t].sha, s))
          == MergedCopy(old(View()).files, Key(old(pulls)[t].sha, s), old(pulls)[t].todo[s], now, io(s))
      ensures forall k: Key :: !(k.sha == old(pulls)[t].sha && k.slot in order) ==>
        SameSlot(old(View()).files, View().files, k)
      ensures NothingToPull(old(View()).files, old(pulls)[t].sha, order, old(pulls)[t].todo) ==>
        View().files == old(View()).files
    {
      hide Local, SlotReconciled, MergedCopy, MergedStatus, NothingToPull, SameSlot;
      ghost var d := View();
      var n := 0;
      while n < |order|
        invariant 0 <= n <= |order|
        invariant View() == ReconciledInOrder(d, t, order[..n], now, io)
      {
        assert order[..n + 1][..n] == order[..n];
        HandleWholeResult(t, order[n], now, io(order[n]));
        n := n + 1;
      }
      assert order[..n] == order;
      ReconciliationMerges(d, t, order, now, io);
      if NothingToPull(d.files, d.pulls[t].sha, order, d.pulls[t].todo) {
        NothingPulledNothingWritten(d, t, order, now, io);
      }
    }
  }
}
