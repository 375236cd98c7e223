/** What one device does beside showing statuses: its settings, its files, and the tasks every step
    starts, advances and ends. */
module TaskLaws {
  import opened Common
  import opened SaveSlots
  import opened CloudSync

  // ---- Settings, files, uploads and deletes ----

  /** The game on screen, the opt-in and the account answer are the last ones told. */
  predicate SettingsFollow(d: Device, e: Event, g: Device) {
    && g.current == (if e.Open? then e.sha else d.current)
    && g.enabled == (if e.Enable? then e.on else d.enabled)
    && g.account == (match e
                     case UploadAccount(t, available) =>
                       if t in d.uploads && d.uploads[t].Asking? then available else d.account
                     case PullAccount(t, available) =>
                       if t in d.pulls && (d.pulls[t].Toggled? || d.pulls[t].AwaitingAccount?) then available
                       else d.account
                     case _ => d.account)
  }

  /** Files change only by a save or a clear of the game on screen and by an import's write. */
  predicate FilesFollow(d: Device, e: Event, g: Device) {
    g.files == match e
      case Save(slot, data, frame, thumb, now, io) =>
        if d.current.Some? then Stored(d.files, Key(d.current.value, slot), data, frame, now, thumb, now, io)
        else d.files
      case Clear(slot, io) => if d.current.Some? then Cleared(d.files, Key(d.current.value, slot), io) else d.files
      case PullWrite(t, now, io) =>
        if t in d.pulls && d.pulls[t].Importing? && d.pulls[t].record.blob.Readable?
        then
          var r := d.pulls[t].record;
          Stored(d.files, Key(d.pulls[t].sha, d.pulls[t].slot), r.blob.data, if r.frame >= 0 then r.frame else 0,
                 r.savedAt.GetOr(-62135769600), r.thumb, now, io)
        else d.files
      case _ => d.files
  }

  /** The uploads in flight: a save with sync on starts one for its slot; it asks for the account, then
      sends the slot as it is then, or ends when the account is refused or the slot is empty; the store's
      answer ends it. */
  predicate UploadsFollow(d: Device, e: Event, g: Device) {
    g.uploads == match e
      case Save(slot, _, _, _, _, _) =>
        if d.current.Some? && d.enabled then d.uploads[d.next := Asking(Key(d.current.value, slot))] else d.uploads
      case UploadAccount(t, available) =>
        if !(t in d.uploads && d.uploads[t].Asking?) then d.uploads
        else
          var k := d.uploads[t].key;
          if available && Local(d.files, k).Some?
          then d.uploads[t := Sending(k, UploadRecord(d.files, k), Local(d.files, k).value.stamp)]
          else d.uploads - {t}
      case UploadAnswer(t, _) => if t in d.uploads && d.uploads[t].Sending? then d.uploads - {t} else d.uploads
      case _ => d.uploads
  }

  /** A clear with sync on starts a delete of its slot; every new task gets a number of its own. */
  predicate DeletesFollow(d: Device, e: Event, g: Device) {
    && g.deletes == (if e.Clear? && d.current.Some? && d.enabled
                     then d.deletes[d.next := Key(d.current.value, e.slot)] else d.deletes)
    && g.next == d.next + if (e.Open? && e.sha.Some? && d.enabled) || (e.Enable? && e.on != d.enabled)
                             || ((e.Save? || e.Clear?) && d.current.Some? && d.enabled) then 1 else 0
  }

  predicate StepFollows(d: Device, e: Event, g: Device) {
    SettingsFollow(d, e, g) && FilesFollow(d, e, g) && UploadsFollow(d, e, g) && DeletesFollow(d, e, g)
  }

  lemma EveryStepFollows(d: Device, e: Event)
    ensures StepFollows(d, e, Apply(d, e))
  {
    hide StepFollows, Apply;
    match e
    case Open(sha) => OpenStepFollows(d, sha);
    case Save(_, _, _, _, _, _) => SaveStepFollows(d, e);
    case Clear(slot, io) => ClearStepFollows(d, slot, io);
    case Enable(on) => EnableStepFollows(d, on);
    case UploadAccount(t, available) => AskStepFollows(d, t, available);
    case UploadAnswer(t, ok) => AnswerStepFollows(d, t, ok);
    case PullStart(t) => StartStepLeaves(d, t);
    case PullAccount(t, available) => AccountStepLeaves(d, t, available);
    case PullRecords(t, results) => RecordsStepLeaves(d, t, results);
    case PullNext(t, slot) => ResultStepLeaves(d, t, slot);
    case PullWrite(_, _, _) => WriteStepLeaves(d, e);
    case PullDone(t) => DoneStepLeaves(d, t);
  }

  lemma OpenStepFollows(d: Device, sha: Option<string>)
    ensures StepFollows(d, Open(sha), Apply(d, Open(sha)))
  {
    hide SeededStates, Stored, Cleared, UploadRecord, Local;
  }

  lemma SaveStepFollows(d: Device, e: Event)
    requires e.Save?
    ensures StepFollows(d, e, Apply(d, e))
  {
    hide Stored, Cleared, UploadRecord, Local;
  }

  lemma ClearStepFollows(d: Device, slot: int, io: Io)
    ensures StepFollows(d, Clear(slot, io), Apply(d, Clear(slot, io)))
  {
    hide Stored, Cleared, UploadRecord, Local;
  }

  lemma EnableStepFollows(d: Device, on: bool)
    ensures StepFollows(d, Enable(on), Apply(d, Enable(on)))
  {
    hide Stored, Cleared, UploadRecord, Local;
  }

  lemma AskStepFollows(d: Device, t: nat, available: bool)
    ensures StepFollows(d, UploadAccount(t, available), Apply(d, UploadAccount(t, available)))
  {
    AskEffects(d, t, available);
    hide Local, UploadRecord, CompletedStates, Stored, Cleared, AccountForUpload;
  }

  lemma AnswerStepFollows(d: Device, t: nat, ok: bool)
    ensures StepFollows(d, UploadAnswer(t, ok), Apply(d, UploadAnswer(t, ok)))
  {
    hide Local, UploadRecord, CompletedStates, Stored, Cleared;
  }

  lemma StartStepLeaves(d: Device, t: nat)
    ensures StepFollows(d, PullStart(t), Apply(d, PullStart(t)))
  {
    hide Local, Stored, Cleared, UploadRecord;
  }

  lemma RecordsStepLeaves(d: Device, t: nat, results: Option<map<int, Fetched>>)
    ensures StepFollows(d, PullRecords(t, results), Apply(d, PullRecords(t, results)))
  {
    hide Local, Stored, Cleared, UploadRecord;
  }

  lemma DoneStepLeaves(d: Device, t: nat)
    ensures StepFollows(d, PullDone(t), Apply(d, PullDone(t)))
  {
    hide Local, Stored, Cleared, UploadRecord;
  }

  lemma AccountStepLeaves(d: Device, t: nat, available: bool)
    ensures StepFollows(d, PullAccount(t, available), Apply(d, PullAccount(t, available)))
  {
    hide StepFollows, Apply;
    if t in d.pulls && d.pulls[t].Toggled? {
      ToggleStepLeaves(d, t, available);
    } else {
      CheckStepLeaves(d, t, available);
    }
  }

  lemma ToggleStepLeaves(d: Device, t: nat, available: bool)
    requires t in d.pulls && d.pulls[t].Toggled?
    ensures StepFollows(d, PullAccount(t, available), Apply(d, PullAccount(t, available)))
  {
    hide Local, SeededStates, AllUnavailable, Stored, Cleared, UploadRecord;
  }

  lemma CheckStepLeaves(d: Device, t: nat, available: bool)
    requires !(t in d.pulls && d.pulls[t].Toggled?)
    ensures StepFollows(d, PullAccount(t, available), Apply(d, PullAccount(t, available)))
  {
    hide Local, SeededStates, AllUnavailable, Stored, Cleared, UploadRecord;
  }

  lemma ResultStepLeaves(d: Device, t: nat, slot: int)
    ensures StepFollows(d, PullNext(t, slot), Apply(d, PullNext(t, slot)))
  {
    hide Local, NextStates, NextPull, Stored, Cleared, UploadRecord;
  }

  lemma WriteStepLeaves(d: Device, e: Event)
    requires e.PullWrite?
    ensures StepFollows(d, e, Apply(d, e))
  {
    WriteEffects(d, e.t, e.now, e.io);
    hide Local, Stored, Cleared, UploadRecord, ImportWritten;
  }

  /** A save travels whole: what one device uploads of a slot and another imports, all writes succeeding,
      is the slot's blob, stamp and thumbnail, and its frame if it is known, else 0. */
  lemma UploadThenImport(f: Files, k: Key, g: Files, j: Key, now: int)
    requires Local(f, k).Some?
    ensures var r := UploadRecord(f, k);
      && r.blob.Readable? && r.frame >= 0
      && var h := Stored(g, j, r.blob.data, r.frame, r.savedAt.GetOr(-62135769600), r.thumb, now, ALL_WELL);
         && Local(h, j) == Local(f, k)
         && SlotOf(h, j) == SlotOf(f, k).(frame := Some(SlotOf(f, k).frame.GetOr(0)))
  {
    var r := UploadRecord(f, k);
    StoredCopy(g, j, r.blob.data, r.frame, r.savedAt.GetOr(-62135769600), r.thumb, now, ALL_WELL);
    hide Stored, Local, SlotOf;
    CopyIsTheSlot(f, k);
  }

  lemma CopyIsTheSlot(f: Files, k: Key)
    requires Local(f, k).Some?
    ensures SlotOf(f, k).savedAt == Some(Local(f, k).value.stamp)
  {
  }

  // ---- Reconciliations ----

  /** What becomes of a pull when its own step comes, None when it ends. */
  function PullAfter(d: Device, p: Pull, e: Event): Option<Pull> {
    match p
    case Toggled =>
      if e.PullAccount? then (if d.enabled && d.current.Some? then Some(AwaitingAccount(d.current.value)) else None)
      else Some(p)
    case Queued(sha) => if e.PullStart? then (if d.enabled then Some(AwaitingAccount(sha)) else None) else Some(p)
    case AwaitingAccount(sha) =>
      if e.PullAccount? then (if e.available then Some(AwaitingRecords(sha)) else None) else Some(p)
    case AwaitingRecords(sha) =>
      if e.PullRecords? then (if e.results.Some? then Some(Applying(sha, e.results.value)) else None) else Some(p)
    case Applying(sha, todo) =>
      if e.PullNext? && e.slot in todo then
        if d.current != Some(sha) then None
        else
          var left := todo - {e.slot};
          match todo[e.slot]
          case NotFound => Some(Applying(sha, left))
          case Found(r) =>
            var copy := Local(d.files, Key(sha, e.slot));
            if !r.blob.Missing? && (copy.None? || r.savedAt.GetOr(-62135769600) > copy.value.stamp)
            then Some(Importing(sha, e.slot, r, left)) else Some(Applying(sha, left))
      else Some(p)
    case Importing(sha, slot, r, todo) =>
      if e.PullWrite? then Some(Imported(sha, slot, r.blob.Readable? && e.io.blob, todo)) else Some(p)
    case Imported(sha, slot, ok, todo) => if e.PullDone? then Some(Applying(sha, todo)) else Some(p)
  }

  predicate IsPullStep(e: Event) {
    e.PullStart? || e.PullAccount? || e.PullRecords? || e.PullNext? || e.PullWrite? || e.PullDone?
  }

  function Changed(pulls: map<nat, Pull>, t: nat, p: Option<Pull>): map<nat, Pull> {
    if p.Some? then pulls[t := p.value] else pulls - {t}
  }

  /** The reconciliations in flight: opening a game with sync on starts one for it, changing the opt-in
      one that asks for the account first; a step of a reconciliation moves it alone. */
  lemma PullsFollow(d: Device, e: Event)
    ensures var g := Apply(d, e);
      && (e.Open? ==> g.pulls == if e.sha.Some? && d.enabled then d.pulls[d.next := Queued(e.sha.value)] else d.pulls)
      && (e.Enable? ==> g.pulls == if e.on != d.enabled then d.pulls[d.next := Toggled] else d.pulls)
      && (IsPullStep(e) ==> PullMoves(d, e))
      && (!e.Open? && !e.Enable? && !IsPullStep(e) ==> g.pulls == d.pulls)
  {
    if IsPullStep(e) {
      PullStepFollows(d, e);
    } else {
      OthersLeavePulls(d, e);
    }
    hide Apply, PullMoves;
  }

  lemma OthersLeavePulls(d: Device, e: Event)
    requires !IsPullStep(e)
    ensures Apply(d, e).pulls ==
      match e
      case Open(sha) => if sha.Some? && d.enabled then d.pulls[d.next := Queued(sha.value)] else d.pulls
      case Enable(on) => if on != d.enabled then d.pulls[d.next := Toggled] else d.pulls
      case _ => d.pulls
  {
    hide Local, Stored, Cleared, UploadRecord, SeededStates, CompletedStates;
  }

  /** The step of reconciliation `e.t` moves it alone. */
  ghost predicate PullMoves(d: Device, e: Event)
    requires IsPullStep(e)
  {
    Apply(d, e).pulls == if e.t in d.pulls then Changed(d.pulls, e.t, PullAfter(d, d.pulls[e.t], e)) else d.pulls
  }

  lemma PullStepFollows(d: Device, e: Event)
    requires IsPullStep(e)
    ensures PullMoves(d, e)
  {
    hide PullMoves;
    match e
    case PullAccount(t, available) => AccountMoves(d, t, available);
    case PullNext(t, slot) => ResultMoves(d, t, slot);
    case PullStart(t) => StartMoves(d, t);
    case PullRecords(t, results) => RecordsMoves(d, t, results);
    case PullWrite(t, now, io) => WriteMoves(d, t, now, io);
    case PullDone(t) => DoneMoves(d, t);
  }

  lemma SamePulls(d: Device, t: nat)
    ensures t in d.pulls ==> d.pulls == d.pulls[t := d.pulls[t]]
  {
  }

  lemma AccountMoves(d: Device, t: nat, available: bool)
    ensures PullMoves(d, PullAccount(t, available))
  {
    hide Local, SeededStates, AllUnavailable;
    SamePulls(d, t);
  }

  lemma ResultMoves(d: Device, t: nat, slot: int)
    ensures PullMoves(d, PullNext(t, slot))
  {
    hide Local, NextStates;
    SamePulls(d, t);
  }

  lemma StartMoves(d: Device, t: nat)
    ensures PullMoves(d, PullStart(t))
  {
    SamePulls(d, t);
  }

  lemma RecordsMoves(d: Device, t: nat, results: Option<map<int, Fetched>>)
    ensures PullMoves(d, PullRecords(t, results))
  {
    SamePulls(d, t);
  }

  lemma WriteMoves(d: Device, t: nat, now: int, io: Io)
    ensures PullMoves(d, PullWrite(t, now, io))
  {
    hide Stored;
    SamePulls(d, t);
  }

  lemma DoneMoves(d: Device, t: nat)
    ensures PullMoves(d, PullDone(t))
  {
    SamePulls(d, t);
  }
}
