/** Clears of a save slot against the reconciliations in flight: which clears last. */
module ClearedSlots {
  import opened Common
  import opened SaveSlots
  import opened CloudSync

  /** Slot `k` is empty and, while its game is on screen, shows no status. */
  ghost predicate Blank(d: Device, k: Key) {
    Local(d.files, k).None? && (d.current == Some(k.sha) ==> k.slot !in d.states)
  }

  /** A successful clear leaves the slot blank. */
  lemma ClearingBlanks(d: Device, slot: int, io: Io)
    requires d.current.Some? && io.blob
    ensures Blank(Apply(d, Clear(slot, io)), Key(d.current.value, slot))
  {
    ClearedCopy(d.files, Key(d.current.value, slot), io);
  }

  // ---- One step ----

  /** The end of an import into `k`, which gives the empty slot a status. */
  ghost predicate RestoresStatus(d: Device, e: Event, k: Key) {
    RevivesStatus(d, e) && Key(d.pulls[e.t].sha, d.pulls[e.t].slot) == k
  }

  ghost predicate Revives(d: Device, e: Event, k: Key) {
    ImportsInto(d, e, k) || RestoresStatus(d, e, k)
  }

  /** A blank slot stays blank over every step but a new save of it, clears of it and uploads of it
      that land or complete late included, with two exceptions: the write of an import into it and
      the end of one. */
  lemma BlankStaysIff(d: Device, e: Event, k: Key)
    requires Blank(d, k) && !SavesSlot(d, e, k)
    ensures Blank(Apply(d, e), k) <==> !Revives(d, e, k)
  {
    if Touches(d, e, k) {
      TouchedBlank(d, e, k);
    } else {
      OthersLeaveTheSlotAlone(d, e, k);
      hide Local;
      if e.PullDone? {
      } else if e.Open? || e.PullAccount? || e.PullNext? {
        StatusNeedsACopy(d, e, k);
      } else {
        OtherStatusesStay(d, e, k);
      }
    }
  }

  lemma TouchedBlank(d: Device, e: Event, k: Key)
    requires Blank(d, k) && Touches(d, e, k) && !e.Save?
    ensures Blank(Apply(d, e), k) <==> !Revives(d, e, k)
  {
    OtherStatusesStay(d, e, k);
    if e.PullWrite? {
      var Importing(sha, slot, r, todo) := d.pulls[e.t];
      WriteEffects(d, e.t, e.now, e.io);
      hide Local, Stored, ImportWritten;
      if r.blob.Readable? {
        StoredCopy(d.files, k, r.blob.data, if r.frame >= 0 then r.frame else 0, Stamp(r), r.thumb, e.now, e.io);
      }
    }
  }

  /** Seeding and reconciling show a status only for a slot with a copy. */
  lemma StatusNeedsACopy(d: Device, e: Event, k: Key)
    requires Blank(d, k) && (e.Open? || e.PullAccount? || e.PullNext?)
    ensures Apply(d, e).current == Some(k.sha) ==> k.slot !in Apply(d, e).states
  {
    hide Local, NextResult, AccountForPull, SeededStates;
    match e
    case Open(sha) => if sha.Some? { SeededFacts(map[], d.files, sha.value); }
    case PullAccount(t, available) => AccountEffects(d, t, available);
    case PullNext(t, slot) => NextEffects(d, t, slot);
  }

  lemma OtherStatusesStay(d: Device, e: Event, k: Key)
    requires Blank(d, k) && !SavesSlot(d, e, k)
    requires !(e.Open? || e.PullAccount? || e.PullNext? || e.PullDone?)
    ensures Apply(d, e).current == Some(k.sha) ==> k.slot !in Apply(d, e).states
  {
    hide Local, Saved, ClearedSlot, EnabledSet, AccountForUpload, UploadAnswered, Started, RecordsArrived,
         ImportWritten, Completed, UploadRecord, Stored, Cleared;
    match e
    case Save(slot, data, frame, thumb, now, io) => SaveEffects(d, slot, data, frame, thumb, now, io);
    case Clear(slot, io) => ClearEffects(d, slot, io);
    case Enable(on) => EnableEffects(d, on);
    case UploadAccount(t, available) =>
      AskEffects(d, t, available);
      if t in d.uploads { CompletedEffects(d.(account := available), t, None); }
    case UploadAnswer(t, ok) =>
      AnswerEffects(d, t, ok);
      if t in d.uploads && d.uploads[t].Sending? {
        CompletedEffects(d, t, if ok then Some(d.uploads[t].stamp) else None);
      }
    case PullStart(t) => StartEffects(d, t);
    case PullRecords(t, results) => RecordsEffects(d, t, results);
    case PullWrite(t, now, io) => WriteEffects(d, t, now, io);
  }

  // ---- Runs ----

  ghost predicate NeverSaved(d: Device, es: seq<Event>, k: Key)
    decreases |es|
  {
    es == [] || (!SavesSlot(d, es[0], k) && NeverSaved(Apply(d, es[0]), es[1..], k))
  }

  ghost predicate NeverRevived(d: Device, es: seq<Event>, k: Key)
    decreases |es|
  {
    es == [] || (!Revives(d, es[0], k) && NeverRevived(Apply(d, es[0]), es[1..], k))
  }

  /** Slot `k` is blank at every state of the run. */
  ghost predicate BlankThroughout(d: Device, es: seq<Event>, k: Key)
    decreases |es|
  {
    Blank(d, k) && (es == [] || BlankThroughout(Apply(d, es[0]), es[1..], k))
  }

  /** Over every run without a save of it, whatever uploads of it are still in flight and however
      often games are switched, a cleared slot stays blank if and only if no step revives it. */
  lemma {:induction false} ClearedSlotStaysBlankIff(d: Device, es: seq<Event>, k: Key)
    requires Blank(d, k) && NeverSaved(d, es, k)
    ensures BlankThroughout(d, es, k) <==> NeverRevived(d, es, k)
    decreases |es|
  {
    hide Blank, SavesSlot, Revives, Apply;
    if es != [] {
      BlankStaysIff(d, es[0], k);
      if Blank(Apply(d, es[0]), k) { ClearedSlotStaysBlankIff(Apply(d, es[0]), es[1..], k); }
    }
  }

  // ---- Every future ----

  /** A fetched record of the slot is waiting its turn. */
  predicate Waiting(todo: map<int, Fetched>, slot: int) {
    slot in todo && todo[slot].Found? && !todo[slot].record.blob.Missing?
  }

  /** Pull `p` holds a record of `k`, or is in the middle of importing one. */
  predicate Coming(p: Pull, k: Key) {
    match p
    case Applying(sha, todo) => sha == k.sha && Waiting(todo, k.slot)
    case Importing(sha, slot, r, todo) => sha == k.sha && (slot == k.slot || Waiting(todo, k.slot))
    case Imported(sha, slot, ok, todo) => sha == k.sha && (slot == k.slot || Waiting(todo, k.slot))
    case _ => false
  }

  ghost predicate NothingComing(d: Device, k: Key) {
    forall t :: t in d.pulls ==> !Coming(d.pulls[t], k)
  }

  /** A record of `k` is fetched. */
  ghost predicate Fetches(d: Device, e: Event, k: Key) {
    e.PullRecords? && e.t in d.pulls && d.pulls[e.t] == AwaitingRecords(k.sha)
    && e.results.Some? && Waiting(e.results.value, k.slot)
  }

  /** No event of the run saves or fetches `k`. */
  ghost predicate Unbidden(d: Device, es: seq<Event>, k: Key)
    decreases |es|
  {
    es == [] || (!SavesSlot(d, es[0], k) && !Fetches(d, es[0], k) && Unbidden(Apply(d, es[0]), es[1..], k))
  }

  lemma WasComing(d: Device, e: Event, k: Key, t: nat)
    requires FreshIds(d) && t in Apply(d, e).pulls && Coming(Apply(d, e).pulls[t], k) && !Fetches(d, e, k)
    ensures t in d.pulls && Coming(d.pulls[t], k)
  {
    TasksStepped(d, e);
    if t in d.pulls && Some(t) == TaskOf(e) {
      hide NextResult, ImportWritten, AccountForPull, RecordsArrived, ImportDone, Started, FreshIds, TasksStep,
           NeedsPull;
      match e
      case PullStart(_) => StartEffects(d, t);
      case PullAccount(_, available) => AccountEffects(d, t, available);
      case PullRecords(_, results) => RecordsEffects(d, t, results);
      case PullNext(_, slot) => NextEffects(d, t, slot);
      case PullWrite(_, now, io) => WriteEffects(d, t, now, io);
      case PullDone(_) => DoneEffects(d, t);
    }
  }

  lemma NothingComingStays(d: Device, e: Event, k: Key)
    requires FreshIds(d) && NothingComing(d, k) && !Fetches(d, e, k)
    ensures FreshIds(Apply(d, e)) && NothingComing(Apply(d, e), k)
  {
    TasksStepped(d, e);
    hide Apply, Fetches, FreshIds, Coming;
    forall t | t in Apply(d, e).pulls ensures !Coming(Apply(d, e).pulls[t], k) {
      if Coming(Apply(d, e).pulls[t], k) { WasComing(d, e, k, t); }
    }
  }

  lemma {:induction false} NothingRevives(d: Device, es: seq<Event>, k: Key)
    requires FreshIds(d) && Blank(d, k) && NothingComing(d, k) && Unbidden(d, es, k)
    ensures Blank(Run(d, es), k)
    decreases |es|
  {
    if es != [] {
      hide Apply, Blank, Fetches, FreshIds;
      BlankStaysIff(d, es[0], k);
      NothingComingStays(d, es[0], k);
      NothingRevives(Apply(d, es[0]), es[1..], k);
    }
  }

  /** Some run without a save or a fetch of `k` undoes its clearing. */
  ghost predicate CanRevive(d: Device, k: Key) {
    exists es :: Unbidden(d, es, k) && !Blank(Run(d, es), k)
  }

  lemma CanReviveNow(d: Device, k: Key)
    requires !Blank(d, k)
    ensures CanRevive(d, k)
  {
    assert Unbidden(d, [], k) && Run(d, []) == d;
  }

  lemma CanReviveAfter(d: Device, e: Event, k: Key)
    requires !SavesSlot(d, e, k) && !Fetches(d, e, k) && CanRevive(Apply(d, e), k)
    ensures CanRevive(d, k)
  {
    hide Apply, Blank, SavesSlot, Fetches;
    var es :| Unbidden(Apply(d, e), es, k) && !Blank(Run(Apply(d, e), es), k);
    assert ([e] + es)[1..] == es;
    assert Unbidden(d, [e] + es, k) && Run(d, [e] + es) == Run(Apply(d, e), es);
  }

  lemma OpeningKeepsPull(d: Device, t: nat, sha: string)
    requires FreshIds(d) && t in d.pulls
    ensures var g := Apply(d, Open(Some(sha)));
      FreshIds(g) && g.files == d.files && g.current == Some(sha) && t in g.pulls && g.pulls[t] == d.pulls[t]
  {
    TasksStepped(d, Open(Some(sha)));
    hide SeededStates, TasksStep;
  }

  /** An import that has been written into `k` will show a status once the game is opened. */
  lemma ImportedRevives(d: Device, t: nat, k: Key)
    requires FreshIds(d) && t in d.pulls && d.pulls[t].Imported? && Key(d.pulls[t].sha, d.pulls[t].slot) == k
    ensures CanRevive(d, k)
  {
    var g := Apply(d, Open(Some(k.sha)));
    OpeningKeepsPull(d, t, k.sha);
    hide Opened, Local, Unbidden;
    CanReviveNow(Apply(g, PullDone(t)), k);
    CanReviveAfter(g, PullDone(t), k);
    CanReviveAfter(d, Open(Some(k.sha)), k);
  }

  lemma ImportingRevives(d: Device, t: nat, k: Key)
    requires FreshIds(d) && t in d.pulls && d.pulls[t].Importing? && Key(d.pulls[t].sha, d.pulls[t].slot) == k
    ensures CanRevive(d, k)
  {
    var e := PullWrite(t, 0, ALL_WELL);
    TasksStepped(d, e);
    WriteEffects(d, t, 0, ALL_WELL);
    hide ImportWritten, Stored, CanRevive, Local, TasksStep, FreshIds;
    ImportedRevives(Apply(d, e), t, k);
    CanReviveAfter(d, e, k);
  }

  lemma ApplyingRevives(d: Device, t: nat, k: Key)
    requires FreshIds(d) && t in d.pulls && d.pulls[t].Applying? && Coming(d.pulls[t], k) && Local(d.files, k).None?
    ensures CanRevive(d, k)
  {
    var g, e := Apply(d, Open(Some(k.sha))), PullNext(t, k.slot);
    OpeningKeepsPull(d, t, k.sha);
    TasksStepped(g, e);
    hide Opened, Local, CanRevive, TasksStep, FreshIds, NextStates;
    ImportingRevives(Apply(g, e), t, k);
    CanReviveAfter(g, e, k);
    CanReviveAfter(d, Open(Some(k.sha)), k);
  }

  lemma ImportedBeforeRevives(d: Device, t: nat, k: Key)
    requires FreshIds(d) && t in d.pulls && d.pulls[t].Imported? && Coming(d.pulls[t], k) && Local(d.files, k).None?
    ensures CanRevive(d, k)
  {
    if d.pulls[t].slot == k.slot {
      ImportedRevives(d, t, k);
    } else {
      TasksStepped(d, PullDone(t));
      hide Local, CanRevive, TasksStep, FreshIds;
      ApplyingRevives(Apply(d, PullDone(t)), t, k);
      CanReviveAfter(d, PullDone(t), k);
    }
  }

  lemma ImportingBeforeRevives(d: Device, t: nat, k: Key)
    requires FreshIds(d) && t in d.pulls && d.pulls[t].Importing? && Coming(d.pulls[t], k) && Local(d.files, k).None?
    ensures CanRevive(d, k)
  {
    if d.pulls[t].slot == k.slot {
      ImportingRevives(d, t, k);
    } else {
      var e := PullWrite(t, 0, ALL_WELL);
      TasksStepped(d, e);
      OthersLeaveTheSlotAlone(d, e, k);
      WriteEffects(d, t, 0, ALL_WELL);
      hide Local, CanRevive, TasksStep, FreshIds, ImportWritten, Stored;
      ImportedBeforeRevives(Apply(d, e), t, k);
      CanReviveAfter(d, e, k);
    }
  }

  lemma ComingRevives(d: Device, t: nat, k: Key)
    requires FreshIds(d) && t in d.pulls && Coming(d.pulls[t], k) && Local(d.files, k).None?
    ensures CanRevive(d, k)
  {
    hide CanRevive, Local, FreshIds;
    match d.pulls[t]
    case Applying(_, _) => ApplyingRevives(d, t, k);
    case Importing(_, _, _, _) => ImportingBeforeRevives(d, t, k);
    case Imported(_, _, _, _) => ImportedBeforeRevives(d, t, k);
  }

  /** A cleared slot is safe in every future without a save or a fetch of it if and only if no
      reconciliation holds a record of it or is importing one now. */
  lemma ClearLastsIff(d: Device, k: Key)
    requires FreshIds(d) && Blank(d, k)
    ensures (forall es :: Unbidden(d, es, k) ==> Blank(Run(d, es), k)) <==> NothingComing(d, k)
  {
    if NothingComing(d, k) {
      forall es | Unbidden(d, es, k) ensures Blank(Run(d, es), k) { NothingRevives(d, es, k); }
    } else {
      var t :| t in d.pulls && Coming(d.pulls[t], k);
      ComingRevives(d, t, k);
      hide Blank, Coming;
      var es :| Unbidden(d, es, k) && !Blank(Run(d, es), k);
      assert !(Unbidden(d, es, k) ==> Blank(Run(d, es), k));
    }
  }

  // ---- How a clear is undone ----

  /** The revived slot: a slot cleared while an import into it is suspended comes back. */
  lemma ClearDuringImportIsUndone(d: Device, t: nat, now: int)
    requires t in d.pulls && d.pulls[t].Importing? && d.current == Some(d.pulls[t].sha)
    requires d.pulls[t].record.blob.Readable?
    ensures var slot, r := d.pulls[t].slot, d.pulls[t].record;
      var k := Key(d.pulls[t].sha, slot);
      var cleared := Apply(d, Clear(slot, ALL_WELL));
      var end := Apply(Apply(cleared, PullWrite(t, now, ALL_WELL)), PullDone(t));
      && Local(cleared.files, k) == None && slot !in cleared.states
      && Local(end.files, k) == Some(Copy(r.blob.data, Stamp(r)))
      && slot in end.states && end.states[slot] == Synced
  {
    var slot := d.pulls[t].slot;
    ClearedCopy(d.files, Key(d.pulls[t].sha, slot), ALL_WELL);
    ClearEffects(d, slot, ALL_WELL);
    hide Local, ClearedSlot;
    ImportEnds(Apply(d, Clear(slot, ALL_WELL)), t, now);
  }

  /** No import need be suspended: a clear while a fetched record is still waiting its turn is undone
      by the steps of that reconciliation. */
  lemma ClearBeforeImportIsUndone(d: Device, t: nat, slot: int, now: int)
    requires t in d.pulls && d.pulls[t].Applying? && d.current == Some(d.pulls[t].sha)
    requires slot in d.pulls[t].todo && d.pulls[t].todo[slot].Found? && d.pulls[t].todo[slot].record.blob.Readable?
    ensures var k, r := Key(d.pulls[t].sha, slot), d.pulls[t].todo[slot].record;
      var cleared := Apply(d, Clear(slot, ALL_WELL));
      var end := Apply(Apply(Apply(cleared, PullNext(t, slot)), PullWrite(t, now, ALL_WELL)), PullDone(t));
      && Blank(cleared, k)
      && Local(end.files, k) == Some(Copy(r.blob.data, Stamp(r)))
      && slot in end.states && end.states[slot] == Synced
  {
    ClearingBlanks(d, slot, ALL_WELL);
    ClearEffects(d, slot, ALL_WELL);
    var cleared := Apply(d, Clear(slot, ALL_WELL));
    hide Local, ClearedSlot;
    NextFacts(cleared, t, slot);
    ImportEnds(Apply(cleared, PullNext(t, slot)), t, now);
  }
}
