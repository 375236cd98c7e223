/** Cloud synchronisation of the save slots of one user's devices: last writer wins by save stamp.
    Every `await` splits an operation, so each event below is one uninterrupted step of the main
    actor, of a detached file import, or of the cloud store. */
module CloudSync {
  import opened Common
  import opened SaveSlots

  datatype Status = Unavailable | LocalOnly | Uploading | Synced

  /** The blob asset of a fetched record. */
  datatype Asset = Missing | Unreadable | Readable(data: Bytes)

  datatype Record = Record(savedAt: Option<int>, frame: int, blob: Asset, thumb: Option<Bytes>)

  datatype Fetched = Found(record: Record) | NotFound

  const DISTANT_PAST := -62135769600

  function Stamp(r: Record): int {
    r.savedAt.GetOr(DISTANT_PAST)
  }

  /** An upload: waiting for the account answer, or for the store's answer about `record`. */
  datatype Upload = Asking(key: Key) | Sending(key: Key, record: Record, stamp: int)

  /** A reconciliation task, by the point it is suspended at. */
  datatype Pull =
    | Toggled                                    // the opt-in changed; the account is being asked
    | Queued(sha: string)                        // created, not started
    | AwaitingAccount(sha: string)
    | AwaitingRecords(sha: string)
    | Applying(sha: string, todo: map<int, Fetched>)
    | Importing(sha: string, slot: int, record: Record, todo: map<int, Fetched>)
    | Imported(sha: string, slot: int, ok: bool, todo: map<int, Fetched>)

  /** One device: its files, the published state, and its suspended tasks. */
  datatype Device = Device(files: Files, states: map<int, Status>, current: Option<string>,
                           enabled: bool, account: bool,
                           uploads: map<nat, Upload>, pulls: map<nat, Pull>, deletes: map<nat, Key>, next: nat)

  datatype Event =
    | Open(sha: Option<string>)
    | Save(slot: int, data: Bytes, frame: nat, thumb: Option<Bytes>, now: int, io: Io)
    | Clear(slot: int, io: Io)
    | Enable(on: bool)
    | UploadAccount(t: nat, available: bool)
    | UploadAnswer(t: nat, ok: bool)
    | PullStart(t: nat)
    | PullAccount(t: nat, available: bool)
    | PullRecords(t: nat, results: Option<map<int, Fetched>>)
    | PullNext(t: nat, slot: int)
    | PullWrite(t: nat, now: int, io: Io)
    | PullDone(t: nat)

  // ---- State functions ----

  function Spawn(d: Device, p: Pull): Device {
    d.(pulls := d.pulls[d.next := p], next := d.next + 1)
  }

  /** Every non-empty slot of the game starts as local-only; the others have no status. */
  function SeededStates(states: map<int, Status>, f: Files, sha: string): map<int, Status> {
    (map slot | slot in states && !(0 <= slot < SLOT_COUNT) :: states[slot])
    + (map slot | 0 <= slot < SLOT_COUNT && Local(f, Key(sha, slot)).Some? :: LocalOnly)
  }

  function Seeded(d: Device, sha: string): Device {
    d.(states := SeededStates(d.states, d.files, sha))
  }

  function AllUnavailable(states: map<int, Status>): map<int, Status> {
    map slot | slot in states :: Unavailable
  }

  function Opened(d: Device, sha: Option<string>): Device {
    var e := d.(current := sha, states := map[]);
    if sha.Some? && e.enabled then Spawn(Seeded(e, sha.value), Queued(sha.value)) else e
  }

  function Saved(d: Device, slot: int, data: Bytes, frame: nat, thumb: Option<Bytes>, now: int, io: Io): Device {
    if d.current.None? then d
    else
      var k := Key(d.current.value, slot);
      var e := d.(files := Stored(d.files, k, data, frame, now, thumb, now, io));
      if !e.enabled then e
      else e.(states := e.states[slot := Uploading], uploads := e.uploads[e.next := Asking(k)], next := e.next + 1)
  }

  function ClearedSlot(d: Device, slot: int, io: Io): Device {
    if d.current.None? then d
    else
      var k := Key(d.current.value, slot);
      var e := d.(files := Cleared(d.files, k, io), states := d.states - {slot});
      if !e.enabled then e else e.(deletes := e.deletes[e.next := k], next := e.next + 1)
  }

  function EnabledSet(d: Device, on: bool): Device {
    if on == d.enabled then d else Spawn(d.(enabled := on), Toggled)
  }

  /** The statuses at the end of an upload: the outcome is published if it still concerns the
      game on screen and the slot still has a save. */
  function CompletedStates(d: Device, k: Key, sent: Option<int>): map<int, Status> {
    if d.current != Some(k.sha) then d.states
    else
      match Local(d.files, k)
      case None => d.states - {k.slot}
      case Some(c) => d.states[k.slot := if sent == Some(c.stamp) then Synced else LocalOnly]
  }

  function Completed(d: Device, t: nat, sent: Option<int>): Device
    requires t in d.uploads
  {
    d.(uploads := d.uploads - {t}, states := CompletedStates(d, d.uploads[t].key, sent))
  }

  function UploadRecord(f: Files, k: Key): Record
    requires Local(f, k).Some?
  {
    Record(Some(Local(f, k).value.stamp), SlotOf(f, k).frame.GetOr(0), Readable(Local(f, k).value.data),
           SlotOf(f, k).thumbnail)
  }

  function AccountForUpload(d: Device, t: nat, available: bool): Device {
    if t !in d.uploads || !d.uploads[t].Asking? then d
    else
      var e := d.(account := available);
      var k := e.uploads[t].key;
      if !available || Local(e.files, k).None? then Completed(e, t, None)
      else e.(uploads := e.uploads[t := Sending(k, UploadRecord(e.files, k), Local(e.files, k).value.stamp)])
  }

  function UploadAnswered(d: Device, t: nat, ok: bool): Device {
    if t !in d.uploads || !d.uploads[t].Sending? then d
    else Completed(d, t, if ok then Some(d.uploads[t].stamp) else None)
  }

  function Dropped(d: Device, t: nat): Device {
    d.(pulls := d.pulls - {t})
  }

  function Started(d: Device, t: nat): Device {
    if t !in d.pulls || !d.pulls[t].Queued? then d
    else if d.enabled then d.(pulls := d.pulls[t := AwaitingAccount(d.pulls[t].sha)])
    else Dropped(d, t)
  }

  function AccountForPull(d: Device, t: nat, available: bool): Device {
    if t !in d.pulls then d
    else
      match d.pulls[t]
      case Toggled =>
        var e := d.(account := available);
        if e.current.Some? && e.enabled
        then Seeded(e, e.current.value).(pulls := e.pulls[t := AwaitingAccount(e.current.value)])
        else Dropped(if !e.enabled then e.(states := map[]) else e, t)
      case AwaitingAccount(sha) =>
        var e := d.(account := available);
        if available then e.(pulls := e.pulls[t := AwaitingRecords(sha)])
        else Dropped(e.(states := AllUnavailable(e.states)), t)
      case _ => d
  }

  function RecordsArrived(d: Device, t: nat, results: Option<map<int, Fetched>>): Device {
    if t !in d.pulls || !d.pulls[t].AwaitingRecords? then d
    else if results.None? then Dropped(d, t)
    else d.(pulls := d.pulls[t := Applying(d.pulls[t].sha, results.value)])
  }

  /** A remote copy is pulled into an empty slot, or over a copy with a smaller stamp. */
  predicate NeedsPull(local: Option<Copy>, r: Record) {
    local.None? || Stamp(r) > local.value.stamp
  }

  function NextStates(states: map<int, Status>, local: Option<Copy>, slot: int, f: Fetched): map<int, Status> {
    match f
    case NotFound => if local.None? then states - {slot} else states[slot := LocalOnly]
    case Found(r) => if !NeedsPull(local, r) then states[slot := Synced] else states
  }

  function NextPull(local: Option<Copy>, sha: string, slot: int, f: Fetched, todo: map<int, Fetched>): Pull {
    if f.Found? && NeedsPull(local, f.record) && !f.record.blob.Missing?
    then Importing(sha, slot, f.record, todo)
    else Applying(sha, todo)
  }

  function NextResult(d: Device, t: nat, slot: int): Device {
    if t !in d.pulls || !d.pulls[t].Applying? || slot !in d.pulls[t].todo then d
    else
      var Applying(sha, todo) := d.pulls[t];
      if d.current != Some(sha) then Dropped(d, t)
      else
        var local := Local(d.files, Key(sha, slot));
        d.(pulls := d.pulls[t := NextPull(local, sha, slot, todo[slot], todo - {slot})],
           states := NextStates(d.states, local, slot, todo[slot]))
  }

  function ImportWritten(d: Device, t: nat, now: int, io: Io): Device {
    if t !in d.pulls || !d.pulls[t].Importing? then d
    else
      var Importing(sha, slot, r, todo) := d.pulls[t];
      if r.blob.Readable?
      then d.(files := Stored(d.files, Key(sha, slot), r.blob.data, if r.frame >= 0 then r.frame else 0,
                              Stamp(r), r.thumb, now, io),
              pulls := d.pulls[t := Imported(sha, slot, io.blob, todo)])
      else d.(pulls := d.pulls[t := Imported(sha, slot, false, todo)])
  }

  function ImportDone(d: Device, t: nat): Device {
    if t !in d.pulls || !d.pulls[t].Imported? then d
    else
      var Imported(sha, slot, ok, todo) := d.pulls[t];
      var e := d.(pulls := d.pulls[t := Applying(sha, todo)]);
      if e.current != Some(sha) then e
      else e.(states := e.states[slot := if ok then Synced else LocalOnly])
  }

  function Apply(d: Device, e: Event): Device {
    match e
    case Open(sha) => Opened(d, sha)
    case Save(slot, data, frame, thumb, now, io) => Saved(d, slot, data, frame, thumb, now, io)
    case Clear(slot, io) => ClearedSlot(d, slot, io)
    case Enable(on) => EnabledSet(d, on)
    case UploadAccount(t, available) => AccountForUpload(d, t, available)
    case UploadAnswer(t, ok) => UploadAnswered(d, t, ok)
    case PullStart(t) => Started(d, t)
    case PullAccount(t, available) => AccountForPull(d, t, available)
    case PullRecords(t, results) => RecordsArrived(d, t, results)
    case PullNext(t, slot) => NextResult(d, t, slot)
    case PullWrite(t, now, io) => ImportWritten(d, t, now, io)
    case PullDone(t) => ImportDone(d, t)
  }

  // ---- What each step changes ----

  lemma SeededFacts(states: map<int, Status>, f: Files, sha: string)
    ensures forall s :: s in SeededStates(states, f, sha) <==>
      (if 0 <= s < SLOT_COUNT then Local(f, Key(sha, s)).Some? else s in states)
    ensures forall s :: s in SeededStates(states, f, sha) && !(0 <= s < SLOT_COUNT) ==>
      SeededStates(states, f, sha)[s] == states[s]
    ensures forall s :: s in SeededStates(states, f, sha) && 0 <= s < SLOT_COUNT ==>
      SeededStates(states, f, sha)[s] == LocalOnly
  {
    hide Local;
  }

  lemma OpenEffects(d: Device, sha: Option<string>)
    ensures var g := Opened(d, sha);
      && g == d.(current := sha, states := g.states, pulls := g.pulls, next := g.next)
      && ((g.pulls == d.pulls && g.next == d.next)
          || (sha.Some? && g.pulls == d.pulls[d.next := Queued(sha.value)] && g.next == d.next + 1))
      && (forall s :: s in g.states ==> sha.Some? && Local(d.files, Key(sha.value, s)).Some?)
  {
    hide Local, SeededStates;
    if sha.Some? { SeededFacts(map[], d.files, sha.value); }
  }

  lemma SaveEffects(d: Device, slot: int, data: Bytes, frame: nat, thumb: Option<Bytes>, now: int, io: Io)
    ensures var g := Saved(d, slot, data, frame, thumb, now, io);
      && (d.current.None? ==> g == d)
      && (d.current.Some? ==>
            var k := Key(d.current.value, slot);
            && g.files == Stored(d.files, k, data, frame, now, thumb, now, io)
            && g == if d.enabled
                    then d.(files := g.files, states := d.states[slot := Uploading],
                            uploads := d.uploads[d.next := Asking(k)], next := d.next + 1)
                    else d.(files := g.files))
  {
    hide Stored;
  }

  lemma ClearEffects(d: Device, slot: int, io: Io)
    ensures var g := ClearedSlot(d, slot, io);
      && (d.current.None? ==> g == d)
      && (d.current.Some? ==>
            && g.files == Cleared(d.files, Key(d.current.value, slot), io) && d.next <= g.next
            && g == d.(files := g.files, states := d.states - {slot}, deletes := g.deletes, next := g.next))
  {
    hide Cleared;
  }

  lemma EnableEffects(d: Device, on: bool)
    ensures var g := EnabledSet(d, on);
      g == d || g == d.(enabled := on, pulls := d.pulls[d.next := Toggled], next := d.next + 1)
  {
  }

  lemma CompletedEffects(d: Device, t: nat, sent: Option<int>)
    requires t in d.uploads
    ensures var g, k := Completed(d, t, sent), d.uploads[t].key;
      && g == d.(uploads := d.uploads - {t}, states := g.states)
      && (d.current != Some(k.sha) ==> g.states == d.states)
      && (forall s :: s != k.slot ==>
            (s in g.states <==> s in d.states) && (s in d.states ==> g.states[s] == d.states[s]))
      && (d.current == Some(k.sha) ==> (k.slot in g.states <==> Local(d.files, k).Some?))
  {
    hide Local;
  }

  lemma AskEffects(d: Device, t: nat, available: bool)
    ensures var g, a := AccountForUpload(d, t, available), d.(account := available);
      && (!(t in d.uploads && d.uploads[t].Asking?) ==> g == d)
      && (t in d.uploads && d.uploads[t].Asking? ==>
            var k := d.uploads[t].key;
            if !available || Local(d.files, k).None? then g == Completed(a, t, None)
            else g == a.(uploads :=
                      d.uploads[t := Sending(k, UploadRecord(d.files, k), Local(d.files, k).value.stamp)]))
  {
    hide Local, UploadRecord, Completed;
  }

  lemma AnswerEffects(d: Device, t: nat, ok: bool)
    ensures var g := UploadAnswered(d, t, ok);
      && (!(t in d.uploads && d.uploads[t].Sending?) ==> g == d)
      && (t in d.uploads && d.uploads[t].Sending? ==>
            g == Completed(d, t, if ok then Some(d.uploads[t].stamp) else None))
  {
    hide Completed;
  }

  /** Pull `t` may have advanced or ended; every other one is as before. */
  ghost predicate OnlyTask(d: Device, g: Device, t: nat) {
    && (forall u :: u != t ==> (u in g.pulls <==> u in d.pulls) && (u in d.pulls ==> g.pulls[u] == d.pulls[u]))
    && (t in g.pulls ==> t in d.pulls)
  }

  lemma StartEffects(d: Device, t: nat)
    ensures var g := Started(d, t);
      && g == d.(pulls := g.pulls) && OnlyTask(d, g, t)
      && (t in g.pulls ==> g.pulls[t] == d.pulls[t] || g.pulls[t].AwaitingAccount?)
  {
  }

  lemma ToggledAnswered(d: Device, t: nat, available: bool)
    requires t in d.pulls && d.pulls[t].Toggled?
    ensures AccountShown(d, AccountForPull(d, t, available), t)
  {
    hide Local, SeededStates;
    if d.current.Some? { SeededFacts(d.states, d.files, d.current.value); }
  }

  lemma PullAccountAnswered(d: Device, t: nat, available: bool)
    requires t !in d.pulls || !d.pulls[t].Toggled?
    ensures AccountShown(d, AccountForPull(d, t, available), t)
  {
    hide Local, SeededStates;
  }

  ghost predicate AccountShown(d: Device, g: Device, t: nat) {
    && g == d.(states := g.states, pulls := g.pulls, account := g.account) && OnlyTask(d, g, t)
    && (t in g.pulls ==> g.pulls[t] == d.pulls[t] || g.pulls[t].AwaitingAccount? || g.pulls[t].AwaitingRecords?)
    && (forall s :: s in g.states ==>
          (s in d.states && (g.states[s] == d.states[s] || g.states[s] == Unavailable))
          || (d.current.Some? && Local(d.files, Key(d.current.value, s)).Some?))
  }

  lemma AccountEffects(d: Device, t: nat, available: bool)
    ensures AccountShown(d, AccountForPull(d, t, available), t)
  {
    hide AccountShown, AccountForPull;
    if t in d.pulls && d.pulls[t].Toggled? {
      ToggledAnswered(d, t, available);
    } else {
      PullAccountAnswered(d, t, available);
    }
  }

  lemma RecordsEffects(d: Device, t: nat, results: Option<map<int, Fetched>>)
    ensures var g := RecordsArrived(d, t, results);
      && g == d.(pulls := g.pulls) && OnlyTask(d, g, t)
      && (t in g.pulls ==>
            g.pulls[t] == d.pulls[t]
            || (d.pulls[t].AwaitingRecords? && results.Some? && g.pulls[t] == Applying(d.pulls[t].sha, results.value)))
  {
  }

  lemma NextTouchesOneTask(d: Device, t: nat, slot: int)
    ensures var g := NextResult(d, t, slot); g == d.(states := g.states, pulls := g.pulls) && OnlyTask(d, g, t)
  {
    hide Local, NextStates, NextPull;
  }

  /** Handling one fetched result changes only its own task and the status of its slot. */
  lemma NextEffects(d: Device, t: nat, slot: int)
    ensures var g := NextResult(d, t, slot);
      && g == d.(states := g.states, pulls := g.pulls) && OnlyTask(d, g, t)
      && (forall s :: s in g.states && s != slot ==> s in d.states && g.states[s] == d.states[s])
      && (t in g.pulls && g.pulls[t] != d.pulls[t] ==>
            && d.pulls[t].Applying? && slot in d.pulls[t].todo && d.current == Some(d.pulls[t].sha)
            && (g.pulls[t] == Applying(d.pulls[t].sha, d.pulls[t].todo - {slot})
                || (d.pulls[t].todo[slot].Found? && !d.pulls[t].todo[slot].record.blob.Missing?
                    && NeedsPull(Local(d.files, Key(d.pulls[t].sha, slot)), d.pulls[t].todo[slot].record)
                    && g.pulls[t] ==
                       Importing(d.pulls[t].sha, slot, d.pulls[t].todo[slot].record, d.pulls[t].todo - {slot}))))
      && (slot in g.states && !(slot in d.states && g.states[slot] == d.states[slot]) ==>
            t in d.pulls && d.pulls[t].Applying? && d.current == Some(d.pulls[t].sha)
            && Local(d.files, Key(d.pulls[t].sha, slot)).Some?)
  {
    NextTouchesOneTask(d, t, slot);
    hide OnlyTask;
    if t in d.pulls && d.pulls[t].Applying? && slot in d.pulls[t].todo {
      var local := Local(d.files, Key(d.pulls[t].sha, slot));
      hide Local;
      NextStatesFacts(d.states, local, slot, d.pulls[t].todo[slot]);
      NextPullFacts(local, d.pulls[t].sha, slot, d.pulls[t].todo[slot], d.pulls[t].todo - {slot});
      hide NextStates, NextPull, NeedsPull;
    }
  }

  lemma NextStatesFacts(states: map<int, Status>, local: Option<Copy>, slot: int, f: Fetched)
    ensures var g := NextStates(states, local, slot, f);
      && (forall s :: s in g && s != slot ==> s in states && g[s] == states[s])
      && (slot in g && !(slot in states && g[slot] == states[slot]) ==> local.Some?)
  {
  }

  lemma NextPullFacts(local: Option<Copy>, sha: string, slot: int, f: Fetched, todo: map<int, Fetched>)
    ensures var g := NextPull(local, sha, slot, f, todo);
      g == Applying(sha, todo)
      || (f.Found? && !f.record.blob.Missing? && NeedsPull(local, f.record)
          && g == Importing(sha, slot, f.record, todo))
  {
  }

  lemma WriteEffects(d: Device, t: nat, now: int, io: Io)
    ensures var g := ImportWritten(d, t, now, io);
      && g == d.(files := g.files, pulls := g.pulls)
      && (t in d.pulls && d.pulls[t].Importing? ==>
            var Importing(sha, slot, r, todo) := d.pulls[t];
            && g.pulls == d.pulls[t := Imported(sha, slot, r.blob.Readable? && io.blob, todo)]
            && g.files == if r.blob.Readable?
                          then Stored(d.files, Key(sha, slot), r.blob.data, if r.frame >= 0 then r.frame else 0,
                                      Stamp(r), r.thumb, now, io)
                          else d.files)
      && (!(t in d.pulls && d.pulls[t].Importing?) ==> g == d)
  {
    hide Stored;
  }

  lemma DoneEffects(d: Device, t: nat)
    ensures var g := ImportDone(d, t);
      && (!(t in d.pulls && d.pulls[t].Imported?) ==> g == d)
      && (t in d.pulls && d.pulls[t].Imported? ==>
            var Imported(sha, slot, ok, todo) := d.pulls[t];
            g == d.(pulls := d.pulls[t := Applying(sha, todo)],
                    states := if d.current != Some(sha) then d.states
                              else d.states[slot := if ok then Synced else LocalOnly]))
  {
  }

  ghost predicate FreshIds(d: Device) {
    (forall t :: t in d.uploads ==> t < d.next) && (forall t :: t in d.pulls ==> t < d.next)
  }

  /** The tasks after a step: task `t` may have advanced or ended, one new task may have been
      created under a fresh number, every other task is as before. */
  ghost predicate TasksStep(d: Device, g: Device, t: Option<nat>) {
    && g.next >= d.next
    && (forall u :: u in g.uploads ==> u in d.uploads || d.next == u < g.next)
    && (forall u :: u in g.pulls ==>
          (u in d.pulls && (Some(u) == t || g.pulls[u] == d.pulls[u])) || d.next == u < g.next)
    && (forall u :: u in g.pulls && u !in d.pulls ==> g.pulls[u].Toggled? || g.pulls[u].Queued?)
    && (forall u :: u in d.pulls && Some(u) != t ==> u in g.pulls)
  }

  ghost function TaskOf(e: Event): Option<nat> {
    match e
    case PullStart(t) => Some(t)
    case PullAccount(t, _) => Some(t)
    case PullRecords(t, _) => Some(t)
    case PullNext(t, _) => Some(t)
    case PullWrite(t, _, _) => Some(t)
    case PullDone(t) => Some(t)
    case _ => None
  }

  lemma TasksOfUserEvents(d: Device, e: Event)
    requires FreshIds(d) && (e.Open? || e.Save? || e.Clear? || e.Enable?)
    ensures TasksStep(d, Apply(d, e), None)
  {
    hide Local, Opened, Saved, ClearedSlot, EnabledSet, Stored, Cleared;
    match e
    case Open(sha) => OpenEffects(d, sha);
    case Save(slot, data, frame, thumb, now, io) => SaveEffects(d, slot, data, frame, thumb, now, io);
    case Clear(slot, io) => ClearEffects(d, slot, io);
    case Enable(on) => EnableEffects(d, on);
  }

  lemma TasksOfPullEvents(d: Device, e: Event)
    requires FreshIds(d) && TaskOf(e).Some?
    ensures TasksStep(d, Apply(d, e), TaskOf(e))
  {
    hide Local, Started, AccountForPull, RecordsArrived, NextResult, ImportWritten, ImportDone, Stored;
    match e
    case PullStart(t) => StartEffects(d, t);
    case PullAccount(t, available) => AccountEffects(d, t, available);
    case PullRecords(t, results) => RecordsEffects(d, t, results);
    case PullNext(t, slot) => NextEffects(d, t, slot);
    case PullWrite(t, now, io) => WriteEffects(d, t, now, io);
    case PullDone(t) => DoneEffects(d, t);
  }

  lemma TaskNumbersStay(d: Device, g: Device, t: Option<nat>)
    requires FreshIds(d)
    ensures TasksStep(d, g, t) ==> FreshIds(g)
  {
  }

  lemma TasksStepped(d: Device, e: Event)
    requires FreshIds(d)
    ensures TasksStep(d, Apply(d, e), TaskOf(e))
    ensures FreshIds(Apply(d, e))
  {
    hide Apply;
    TaskNumbersStay(d, Apply(d, e), TaskOf(e));
    if TaskOf(e).Some? {
      TasksOfPullEvents(d, e);
    } else if e.UploadAccount? {
      AskFrame(d, e.t, e.available);
    } else if e.UploadAnswer? {
      AnswerFrame(d, e.t, e.ok);
    } else {
      TasksOfUserEvents(d, e);
    }
  }

  /** An upload step changes nothing but the uploads it is about, the account and the statuses. */
  ghost predicate UploadStep(d: Device, g: Device) {
    && g == d.(states := g.states, account := g.account, uploads := g.uploads)
    && forall u :: u in g.uploads ==> u in d.uploads
  }

  lemma AskFrame(d: Device, t: nat, available: bool)
    ensures var g := Apply(d, UploadAccount(t, available));
      && UploadStep(d, g)
      && (forall u :: u in g.uploads && u != t ==> g.uploads[u] == d.uploads[u])
      && (t in g.uploads && g.uploads[t] != d.uploads[t] ==>
            var k := d.uploads[t].key;
            Local(d.files, k).Some?
            && g.uploads[t] == Sending(k, UploadRecord(d.files, k), Local(d.files, k).value.stamp))
  {
    hide Local, AccountForUpload, Completed, UploadRecord;
    AskEffects(d, t, available);
    if t in d.uploads { CompletedEffects(d.(account := available), t, None); }
  }

  lemma AnswerFrame(d: Device, t: nat, ok: bool)
    ensures var g := Apply(d, UploadAnswer(t, ok));
      UploadStep(d, g) && forall u :: u in g.uploads ==> g.uploads[u] == d.uploads[u]
  {
    hide Local, UploadAnswered, Completed;
    AnswerEffects(d, t, ok);
    if t in d.uploads && d.uploads[t].Sending? {
      CompletedEffects(d, t, if ok then Some(d.uploads[t].stamp) else None);
    }
  }

  /** What an upload sends was being sent before, or has just been read from the slot. */
  lemma SendingStarts(d: Device, e: Event, t: nat)
    requires t in Apply(d, e).uploads && Apply(d, e).uploads[t].Sending?
    ensures var u := Apply(d, e).uploads[t];
      (t in d.uploads && d.uploads[t] == u)
      || (Local(d.files, u.key).Some? && u.record == UploadRecord(d.files, u.key)
          && u.stamp == Local(d.files, u.key).value.stamp)
  {
    hide Local, Opened, Saved, ClearedSlot, EnabledSet, AccountForUpload, UploadAnswered, Started, AccountForPull,
         RecordsArrived, NextResult, ImportWritten, ImportDone, Completed, UploadRecord, Stored, Cleared;
    match e
    case Open(sha) => OpenEffects(d, sha);
    case Save(slot, data, frame, thumb, now, io) => SaveEffects(d, slot, data, frame, thumb, now, io);
    case Clear(slot, io) => ClearEffects(d, slot, io);
    case Enable(on) => EnableEffects(d, on);
    case UploadAccount(u, available) => AskFrame(d, u, available);
    case UploadAnswer(u, ok) => AnswerFrame(d, u, ok);
    case PullStart(u) => StartEffects(d, u);
    case PullAccount(u, available) => AccountEffects(d, u, available);
    case PullRecords(u, results) => RecordsEffects(d, u, results);
    case PullNext(u, slot) => NextEffects(d, u, slot);
    case PullWrite(u, now, io) => WriteEffects(d, u, now, io);
    case PullDone(u) => DoneEffects(d, u);
  }

  // ---- The status of uploads, over every interleaving ----

  /** The end of an upload changes no status of another game, marks a slot synced exactly when the
      store took the stamp the slot still has, and gives a cleared slot no status. */
  lemma UploadCompletion(d: Device, t: nat, ok: bool)
    requires t in d.uploads && d.uploads[t].Sending?
    ensures var k, e := d.uploads[t].key, Apply(d, UploadAnswer(t, ok));
      && e.files == d.files && e.current == d.current
      && (d.current != Some(k.sha) ==> e.states == d.states)
      && (forall slot :: slot != k.slot ==>
            (slot in e.states <==> slot in d.states) && (slot in d.states ==> e.states[slot] == d.states[slot]))
      && (d.current == Some(k.sha) ==>
            && (k.slot in e.states <==> Local(d.files, k).Some?)
            && (k.slot in e.states ==>
                  (e.states[k.slot] == Synced <==> ok && Local(d.files, k).value.stamp == d.uploads[t].stamp)))
  {
  }

  /** An upload that ends without asking the store (the account is refused, or the slot has been
      emptied) takes the slot back to local-only, or to no status if it is empty. */
  lemma UploadRefused(d: Device, t: nat, available: bool)
    requires t in d.uploads && d.uploads[t].Asking?
    requires !available || Local(d.files, d.uploads[t].key).None?
    ensures var k, e := d.uploads[t].key, Apply(d, UploadAccount(t, available));
      && e.files == d.files && e.current == d.current && e.uploads == d.uploads - {t} && e.account == available
      && (d.current != Some(k.sha) ==> e.states == d.states)
      && (forall slot :: slot != k.slot ==>
            (slot in e.states <==> slot in d.states) && (slot in d.states ==> e.states[slot] == d.states[slot]))
      && (d.current == Some(k.sha) ==>
            (k.slot in e.states <==> Local(d.files, k).Some?) && (k.slot in e.states ==> e.states[k.slot] == LocalOnly))
  {
  }

  /** The stamp an upload compares at its end is the one in the record it sent. */
  ghost predicate SendsItsStamp(d: Device) {
    forall t :: t in d.uploads && d.uploads[t].Sending? ==>
      d.uploads[t].record.savedAt == Some(d.uploads[t].stamp) && d.uploads[t].record.blob.Readable?
  }

  lemma SendsItsStampStep(d: Device, e: Event)
    requires SendsItsStamp(d)
    ensures SendsItsStamp(Apply(d, e))
  {
    hide Apply;
    var g := Apply(d, e);
    forall t | t in g.uploads && g.uploads[t].Sending?
      ensures g.uploads[t].record.savedAt == Some(g.uploads[t].stamp) && g.uploads[t].record.blob.Readable?
    {
      SendingStarts(d, e, t);
    }
  }

  /** On every run, so that "synced" at the end of an upload means the local stamp equals the
      stamp of the record the store took. */
  lemma {:induction false} UploadsSendTheirStamp(d: Device, es: seq<Event>)
    requires SendsItsStamp(d)
    ensures SendsItsStamp(Run(d, es))
    decreases |es|
  {
    hide SendsItsStamp, Apply;
    if es != [] {
      SendsItsStampStep(d, es[0]);
      UploadsSendTheirStamp(Apply(d, es[0]), es[1..]);
    }
  }

  ghost predicate UploadPending(d: Device, k: Key) {
    exists t :: t in d.uploads && d.uploads[t].key == k
  }

  /** A slot of the game on screen that shows a status has a save; or its save failed and is still
      waiting to be uploaded, and then the status claims no more than that. */
  ghost predicate Backed(d: Device, slot: int)
    requires slot in d.states
  {
    d.current.Some?
    && var k := Key(d.current.value, slot);
       Local(d.files, k).Some?
       || (UploadPending(d, k) && (d.states[slot] == Uploading || d.states[slot] == Unavailable))
  }

  ghost predicate StatusesBacked(d: Device) {
    forall slot :: slot in d.states ==> Backed(d, slot)
  }

  /** The one step that can give an empty slot an outcome: the end of an import whose slot was
      emptied (or never filled) in the meantime. */
  ghost predicate RevivesStatus(d: Device, e: Event) {
    e.PullDone? && e.t in d.pulls && d.pulls[e.t].Imported?
    && (var k := Key(d.pulls[e.t].sha, d.pulls[e.t].slot);
        d.current == Some(k.sha) && Local(d.files, k).None?)
  }

  lemma PendingFrame(d: Device, e: Device, k: Key)
    requires UploadPending(d, k)
    requires forall t :: t in d.uploads && d.uploads[t].key == k ==> t in e.uploads && e.uploads[t].key == k
    ensures UploadPending(e, k)
  {
  }

  /** Every step keeps the statuses backed, except the one that revives a status, and that one
      always breaks it. So on every run without such a step (in particular on every run of
      saves, clears, game switches and uploads) an empty slot never shows an outcome. */
  lemma StatusesStayBackedIff(d: Device, e: Event)
    requires StatusesBacked(d) && FreshIds(d)
    ensures FreshIds(Apply(d, e))
    ensures StatusesBacked(Apply(d, e)) <==> !RevivesStatus(d, e)
  {
    TasksStepped(d, e);
    match e
    case UploadAccount(_, _) => UploadStepKeepsBacking(d, e);
    case UploadAnswer(_, _) => UploadStepKeepsBacking(d, e);
    case Save(_, _, _, _, _, _) => FileStepBacking(d, e);
    case Clear(_, _) => FileStepBacking(d, e);
    case PullWrite(_, _, _) => FileStepBacking(d, e);
    case PullNext(_, _) => ResultStepBacking(d, e);
    case PullDone(_) => ResultStepBacking(d, e);
    case _ => PullStepBacking(d, e);
  }

  lemma CompletionKeepsBacking(d: Device, t: nat, sent: Option<int>)
    requires StatusesBacked(d) && t in d.uploads
    ensures StatusesBacked(Completed(d, t, sent)) && Completed(d, t, sent).current == d.current
  {
    CompletedEffects(d, t, sent);
    hide Local, Completed, UploadPending;
    var g := Completed(d, t, sent);
    forall slot | slot in g.states ensures Backed(g, slot) {
      if d.current != Some(d.uploads[t].key.sha) || slot != d.uploads[t].key.slot {
        assert Backed(d, slot);
        PendingAfterCompletion(d, g, t, Key(d.current.value, slot));
      }
    }
  }

  lemma PendingAfterCompletion(d: Device, g: Device, t: nat, k: Key)
    requires t in d.uploads && d.uploads[t].key != k && g.uploads == d.uploads - {t}
    ensures UploadPending(d, k) ==> UploadPending(g, k)
  {
    if UploadPending(d, k) {
      var u :| u in d.uploads && d.uploads[u].key == k;
      assert u in g.uploads && g.uploads[u].key == k;
    }
  }

  lemma UploadStepKeepsBacking(d: Device, e: Event)
    requires StatusesBacked(d) && (e.UploadAccount? || e.UploadAnswer?)
    ensures StatusesBacked(Apply(d, e))
  {
    hide Local, Completed, UploadRecord, AccountForUpload, UploadAnswered, StatusesBacked;
    if e.UploadAccount? {
      AskEffects(d, e.t, e.available);
      var a := d.(account := e.available);
      SameBacking(d, a);
      if e.t in d.uploads && d.uploads[e.t].Asking? {
        if !e.available || Local(d.files, d.uploads[e.t].key).None? {
          CompletionKeepsBacking(a, e.t, None);
        } else {
          SameBacking(a, Apply(d, e));
        }
      }
    } else {
      AnswerEffects(d, e.t, e.ok);
      if e.t in d.uploads && d.uploads[e.t].Sending? {
        CompletionKeepsBacking(d, e.t, if e.ok then Some(d.uploads[e.t].stamp) else None);
      }
    }
  }

  /** Statuses stay backed while no upload goes and no slot empties. */
  lemma SameBacking(d: Device, g: Device)
    requires StatusesBacked(d) && g.states == d.states && g.current == d.current && g.files == d.files
    requires forall t :: t in d.uploads ==> t in g.uploads && g.uploads[t].key == d.uploads[t].key
    ensures StatusesBacked(g)
  {
    hide Local, UploadPending;
    forall slot | slot in g.states ensures Backed(g, slot) {
      assert Backed(d, slot);
      if UploadPending(d, Key(d.current.value, slot)) { PendingFrame(d, g, Key(d.current.value, slot)); }
    }
  }

  /** The same uploads, and every status either is one of `d`'s, or has become unavailable, or is of
      a slot with a copy. */
  lemma BackingFrame(d: Device, g: Device)
    requires StatusesBacked(d) && g.files == d.files && g.uploads == d.uploads
    requires forall s :: s in g.states ==>
      (g.current == d.current && s in d.states && (g.states[s] == d.states[s] || g.states[s] == Unavailable))
      || (g.current.Some? && Local(d.files, Key(g.current.value, s)).Some?)
    ensures StatusesBacked(g)
  {
    hide Local, UploadPending;
    forall slot | slot in g.states ensures Backed(g, slot) {
      if slot in d.states && g.current == d.current {
        assert Backed(d, slot);
        SamePending(d, g, Key(g.current.value, slot));
      }
    }
  }

  /** Steps that write no file and leave the uploads alone. */
  lemma PullStepBacking(d: Device, e: Event)
    requires StatusesBacked(d)
    requires e.Open? || e.Enable? || e.PullStart? || e.PullAccount? || e.PullRecords?
    ensures StatusesBacked(Apply(d, e))
  {
    hide Local, StatusesBacked, Opened, EnabledSet, Started, AccountForPull, RecordsArrived;
    match e {
      case Open(sha) => OpenEffects(d, sha);
      case Enable(on) => EnableEffects(d, on);
      case PullStart(t) => StartEffects(d, t);
      case PullAccount(t, available) => AccountEffects(d, t, available);
      case PullRecords(t, results) => RecordsEffects(d, t, results);
    }
    BackingFrame(d, Apply(d, e));
  }

  lemma ResultStepBacking(d: Device, e: Event)
    requires StatusesBacked(d) && (e.PullNext? || e.PullDone?)
    ensures StatusesBacked(Apply(d, e)) <==> !RevivesStatus(d, e)
  {
    hide Local, UploadPending, NextResult, ImportDone, StatusesBacked;
    var g := Apply(d, e);
    if e.PullNext? {
      NextEffects(d, e.t, e.slot);
      BackingFrame(d, g);
    } else {
      DoneEffects(d, e.t);
      if RevivesStatus(d, e) {
        RevivedIsNotBacked(g, d.pulls[e.t].slot);
      } else {
        BackingFrame(d, g);
      }
    }
  }

  lemma RevivedIsNotBacked(g: Device, slot: int)
    requires slot in g.states && g.current.Some? && Local(g.files, Key(g.current.value, slot)).None?
    requires g.states[slot] == Synced || g.states[slot] == LocalOnly
    ensures !StatusesBacked(g)
  {
    hide Local, UploadPending;
    assert !Backed(g, slot);
  }

  lemma SamePending(d: Device, e: Device, k: Key)
    requires d.uploads == e.uploads
    ensures UploadPending(d, k) == UploadPending(e, k)
  {
  }

  lemma FileStepBacking(d: Device, e: Event)
    requires StatusesBacked(d) && FreshIds(d) && (e.Save? || e.Clear? || e.PullWrite?)
    ensures StatusesBacked(Apply(d, e))
  {
    hide Local, Stored, Cleared, SlotOf, Saved, ClearedSlot, ImportWritten, UploadPending;
    var g := Apply(d, e);
    match e {
      case Save(slot, data, frame, thumb, now, io) =>
        SaveEffects(d, slot, data, frame, thumb, now, io);
        if d.current.Some? { SavedBacking(d, g, e); }
      case Clear(slot, io) =>
        ClearEffects(d, slot, io);
        if d.current.Some? {
          var k := Key(d.current.value, slot);
          ClearedCopy(d.files, k, io);
          FilesBacking(d, g, k);
        }
      case PullWrite(t, now, io) =>
        WriteEffects(d, t, now, io);
        if t in d.pulls && d.pulls[t].Importing? && d.pulls[t].record.blob.Readable? {
          var Importing(s, slot, r, todo) := d.pulls[t];
          StoredCopy(d.files, Key(s, slot), r.blob.data, if r.frame >= 0 then r.frame else 0, Stamp(r), r.thumb,
            now, io);
        }
        FilesBacking(d, g,
          if t in d.pulls && d.pulls[t].Importing? then Key(d.pulls[t].sha, d.pulls[t].slot) else Key("", 0));
    }
  }

  /** Only the files of `k` change, and its status goes unless it keeps a copy. */
  lemma FilesBacking(d: Device, g: Device, k: Key)
    requires StatusesBacked(d) && g.uploads == d.uploads && g.current == d.current
    requires forall s :: s in g.states ==> s in d.states && g.states[s] == d.states[s]
    requires forall j :: j != k ==> Local(g.files, j) == Local(d.files, j)
    requires Local(d.files, k).Some? && Local(g.files, k).None? && g.current == Some(k.sha) ==> k.slot !in g.states
    ensures StatusesBacked(g)
  {
    hide Local, UploadPending;
    forall slot | slot in g.states ensures Backed(g, slot) {
      assert Backed(d, slot);
      SamePending(d, g, Key(g.current.value, slot));
    }
  }

  lemma SavedBacking(d: Device, g: Device, e: Event)
    requires StatusesBacked(d) && FreshIds(d) && e.Save? && d.current.Some?
    requires var k := Key(d.current.value, e.slot);
      && g.files == Stored(d.files, k, e.data, e.frame, e.now, e.thumb, e.now, e.io)
      && g == if d.enabled
              then d.(files := g.files, states := d.states[e.slot := Uploading],
                      uploads := d.uploads[d.next := Asking(k)], next := d.next + 1)
              else d.(files := g.files)
    ensures StatusesBacked(g)
  {
    hide Local, Stored, SlotOf, UploadPending;
    var k := Key(d.current.value, e.slot);
    StoredCopy(d.files, k, e.data, e.frame, e.now, e.thumb, e.now, e.io);
    forall slot | slot in g.states ensures Backed(g, slot) {
      if slot == e.slot && d.enabled {
        assert g.uploads[d.next].key == k;
        NewUploadIsPending(g, d.next);
      } else {
        assert Backed(d, slot);
        if UploadPending(d, Key(d.current.value, slot)) { PendingFrame(d, g, Key(d.current.value, slot)); }
      }
    }
  }

  lemma NewUploadIsPending(g: Device, t: nat)
    requires t in g.uploads
    ensures UploadPending(g, g.uploads[t].key)
  {
  }

  // ---- Runs of one device ----

  ghost function Run(d: Device, es: seq<Event>): Device
    decreases |es|
  {
    if es == [] then d else Run(Apply(d, es[0]), es[1..])
  }

  ghost predicate NeverRevives(d: Device, es: seq<Event>)
    decreases |es|
  {
    es == [] || (!RevivesStatus(d, es[0]) && NeverRevives(Apply(d, es[0]), es[1..]))
  }

  lemma {:induction false} StatusesStayBacked(d: Device, es: seq<Event>)
    requires StatusesBacked(d) && FreshIds(d) && NeverRevives(d, es)
    ensures StatusesBacked(Run(d, es)) && FreshIds(Run(d, es))
    decreases |es|
  {
    if es != [] {
      StatusesStayBackedIff(d, es[0]);
      StatusesStayBacked(Apply(d, es[0]), es[1..]);
    }
  }

  /** The game a pull task works for. */
  function PullSha(p: Pull): Option<string> {
    match p
    case Toggled => None
    case Queued(sha) => Some(sha)
    case AwaitingAccount(sha) => Some(sha)
    case AwaitingRecords(sha) => Some(sha)
    case Applying(sha, _) => Some(sha)
    case Importing(sha, _, _, _) => Some(sha)
    case Imported(sha, _, _, _) => Some(sha)
  }

  ghost predicate PullStep(e: Event, t: nat) {
    match e
    case PullStart(u) => u == t
    case PullAccount(u, _) => u == t
    case PullRecords(u, _) => u == t
    case PullNext(u, _) => u == t
    case PullWrite(u, _, _) => u == t
    case PullDone(u) => u == t
    case _ => false
  }

  lemma QuietWhenStale(d: Device, t: nat, e: Event)
    requires t in d.pulls && PullStep(e, t) && !e.PullAccount?
    requires PullSha(d.pulls[t]).Some? && PullSha(d.pulls[t]) != d.current
    ensures Apply(d, e).states == d.states
  {
    hide Local, Started, RecordsArrived, ImportWritten, ImportDone, NextStates, NextPull;
    match e
    case PullStart(_) => StartEffects(d, t);
    case PullRecords(_, results) => RecordsEffects(d, t, results);
    case PullNext(_, slot) =>
    case PullWrite(_, now, io) => WriteEffects(d, t, now, io);
    case PullDone(_) => DoneEffects(d, t);
  }

  /** A pull for a game that is no longer on screen changes no status, with one exception: when
      its account check fails it marks every status of the game now on screen unavailable. */
  lemma StalePullChangesStatusesIff(d: Device, t: nat, e: Event)
    requires t in d.pulls && PullStep(e, t)
    requires PullSha(d.pulls[t]).Some? && PullSha(d.pulls[t]) != d.current
    ensures Apply(d, e).states == d.states <==>
      !(e.PullAccount? && d.pulls[t].AwaitingAccount? && !e.available
        && exists slot :: slot in d.states && d.states[slot] != Unavailable)
  {
    hide Local, Stored, NextStates, NextPull, SeededStates, Started, RecordsArrived, ImportWritten, ImportDone;
    if !e.PullAccount? {
      QuietWhenStale(d, t, e);
    }
    hide NextResult;
    if e.PullAccount? && d.pulls[t].AwaitingAccount? && !e.available {
      var marked := AllUnavailable(d.states);
      assert Apply(d, e).states == marked && marked.Keys == d.states.Keys;
      if forall slot :: slot in d.states ==> d.states[slot] == Unavailable {
        assert marked == d.states;
      } else {
        var slot :| slot in d.states && d.states[slot] != Unavailable;
        assert marked[slot] != d.states[slot];
      }
    }
  }

  // ---- Stamps ----

  /** The steps that write or remove the files of slot `k`. */
  ghost predicate Touches(d: Device, e: Event, k: Key) {
    match e
    case Save(slot, _, _, _, _, _) => d.current == Some(k.sha) && slot == k.slot
    case Clear(slot, _) => d.current == Some(k.sha) && slot == k.slot
    case PullWrite(t, _, _) =>
      t in d.pulls && d.pulls[t].Importing? && d.pulls[t].sha == k.sha && d.pulls[t].slot == k.slot
    case _ => false
  }

  ghost predicate SavesSlot(d: Device, e: Event, k: Key) {
    e.Save? && Touches(d, e, k)
  }

  /** The file write of an import into `k` that succeeds. */
  ghost predicate ImportsInto(d: Device, e: Event, k: Key) {
    e.PullWrite? && Touches(d, e, k) && d.pulls[e.t].record.blob.Readable? && e.io.blob
  }

  lemma OthersLeaveTheSlotAlone(d: Device, e: Event, k: Key)
    requires !Touches(d, e, k)
    ensures Local(Apply(d, e).files, k) == Local(d.files, k)
  {
    hide Local, Opened, Saved, ClearedSlot, EnabledSet, AccountForUpload, UploadAnswered, Started, AccountForPull,
         RecordsArrived, NextResult, ImportWritten, ImportDone, Completed, UploadRecord, Stored, Cleared, SlotOf;
    match e
    case Open(sha) => OpenEffects(d, sha);
    case Save(slot, data, frame, thumb, now, io) =>
      SaveEffects(d, slot, data, frame, thumb, now, io);
      if d.current.Some? { StoredCopy(d.files, Key(d.current.value, slot), data, frame, now, thumb, now, io); }
    case Clear(slot, io) =>
      ClearEffects(d, slot, io);
      if d.current.Some? { ClearedCopy(d.files, Key(d.current.value, slot), io); }
    case Enable(on) => EnableEffects(d, on);
    case UploadAccount(t, available) => AskFrame(d, t, available);
    case UploadAnswer(t, ok) => AnswerFrame(d, t, ok);
    case PullStart(t) => StartEffects(d, t);
    case PullAccount(t, available) => AccountEffects(d, t, available);
    case PullRecords(t, results) => RecordsEffects(d, t, results);
    case PullNext(t, slot) => NextEffects(d, t, slot);
    case PullWrite(t, now, io) =>
      WriteEffects(d, t, now, io);
      if t in d.pulls && d.pulls[t].Importing? && d.pulls[t].record.blob.Readable? {
        var Importing(s, slot, r, todo) := d.pulls[t];
        StoredCopy(d.files, Key(s, slot), r.blob.data, if r.frame >= 0 then r.frame else 0, Stamp(r), r.thumb, now, io);
      }
    case PullDone(t) => DoneEffects(d, t);
  }

  /** The greater of a local stamp, if any, and a remote one. */
  function MaxStamp(local: Option<Copy>, r: Record): int {
    if local.Some? && local.value.stamp > Stamp(r) then local.value.stamp else Stamp(r)
  }

  /** An import that succeeds with its sidecar installs the record it decided on. It leaves the
      stamp at the maximum of local and remote exactly when the local copy has not become newer
      than the record since that decision: the comparison is not repeated after the suspension. */
  lemma ImportKeepsMaximumIff(d: Device, t: nat, now: int, io: Io)
    requires t in d.pulls && d.pulls[t].Importing? && d.pulls[t].record.blob.Readable?
    requires io.blob && io.meta
    ensures var Importing(sha, slot, r, todo) := d.pulls[t];
      var k := Key(sha, slot);
      var g := Apply(d, PullWrite(t, now, io));
      && Local(g.files, k) == Some(Copy(r.blob.data, Stamp(r)))
      && (Local(g.files, k).value.stamp == MaxStamp(Local(d.files, k), r) <==>
            Local(d.files, k).None? || Local(d.files, k).value.stamp <= Stamp(r))
  {
    hide Local, Stored, ImportWritten, SlotOf;
    var Importing(sha, slot, r, todo) := d.pulls[t];
    WriteEffects(d, t, now, io);
    StoredCopy(d.files, Key(sha, slot), r.blob.data, if r.frame >= 0 then r.frame else 0, Stamp(r), r.thumb, now, io);
  }

  /** No event of the run touches slot `k` or advances task `t`. */
  ghost predicate Undisturbed(d: Device, es: seq<Event>, k: Key, t: nat)
    decreases |es|
  {
    es == [] || (!Touches(d, es[0], k) && !PullStep(es[0], t) && Undisturbed(Apply(d, es[0]), es[1..], k, t))
  }

  lemma TaskFrame(d: Device, e: Event, t: nat)
    requires FreshIds(d) && t in d.pulls && !PullStep(e, t)
    ensures FreshIds(Apply(d, e)) && t in Apply(d, e).pulls && Apply(d, e).pulls[t] == d.pulls[t]
  {
    hide Apply;
    TasksStepped(d, e);
  }

  lemma {:induction false} UndisturbedRun(d: Device, es: seq<Event>, k: Key, t: nat)
    requires FreshIds(d) && t in d.pulls && Undisturbed(d, es, k, t)
    ensures var g := Run(d, es);
      FreshIds(g) && t in g.pulls && g.pulls[t] == d.pulls[t] && Local(g.files, k) == Local(d.files, k)
    decreases |es|
  {
    if es != [] {
      TaskFrame(d, es[0], t);
      OthersLeaveTheSlotAlone(d, es[0], k);
      UndisturbedRun(Apply(d, es[0]), es[1..], k, t);
    }
  }

  /** Reconciling a fetched slot with a readable blob, with any steps in between that leave that
      slot alone, ends at the maximum stamp: the remote copy if it was newer or the slot was
      empty, else the untouched local copy. */
  lemma UndisturbedPullTakesTheMaximum(d: Device, t: nat, slot: int, es: seq<Event>, now: int, io: Io)
    requires FreshIds(d) && t in d.pulls && d.pulls[t].Applying? && d.current == Some(d.pulls[t].sha)
    requires slot in d.pulls[t].todo && d.pulls[t].todo[slot].Found? && d.pulls[t].todo[slot].record.blob.Readable?
    requires Undisturbed(Apply(d, PullNext(t, slot)), es, Key(d.pulls[t].sha, slot), t)
    requires io.blob && io.meta
    ensures var k, r := Key(d.pulls[t].sha, slot), d.pulls[t].todo[slot].record;
      var local := Local(d.files, k);
      var g := Apply(Run(Apply(d, PullNext(t, slot)), es), PullWrite(t, now, io));
      && Local(g.files, k) == (if NeedsPull(local, r) then Some(Copy(r.blob.data, Stamp(r))) else local)
      && Local(g.files, k).value.stamp == MaxStamp(local, r)
  {
    var k := Key(d.pulls[t].sha, slot);
    var d1 := Apply(d, PullNext(t, slot));
    UndisturbedRun(d1, es, k, t);
    var d2 := Run(d1, es);
    if NeedsPull(Local(d.files, k), d.pulls[t].todo[slot].record) {
      ImportKeepsMaximumIff(d2, t, now, io);
    }
  }

  const ALL_WELL := Io(true, true, true)

  /** An import on the game on screen that is let finish. */
  lemma ImportEnds(d: Device, t: nat, now: int)
    requires t in d.pulls && d.pulls[t].Importing? && d.current == Some(d.pulls[t].sha)
    requires d.pulls[t].record.blob.Readable?
    ensures var slot, r := d.pulls[t].slot, d.pulls[t].record;
      var end := Apply(Apply(d, PullWrite(t, now, ALL_WELL)), PullDone(t));
      && Local(end.files, Key(d.pulls[t].sha, slot)) == Some(Copy(r.blob.data, Stamp(r)))
      && slot in end.states && end.states[slot] == Synced
  {
    hide Local, Stored, ImportWritten, ImportDone;
    var Importing(sha, slot, r, todo) := d.pulls[t];
    ImportFacts(d, t, now, ALL_WELL);
    StoredCopy(d.files, Key(sha, slot), r.blob.data, if r.frame >= 0 then r.frame else 0, Stamp(r), r.thumb, now,
      ALL_WELL);
  }

  /** The lost save: a save made while an import of an older record is suspended is overwritten
      by it, and the slot is then shown as synced. */
  lemma SaveDuringImportIsLost(d: Device, t: nat, data: Bytes, frame: nat, now: int)
    requires t in d.pulls && d.pulls[t].Importing? && d.current == Some(d.pulls[t].sha)
    requires d.pulls[t].record.blob.Readable? && now > Stamp(d.pulls[t].record)
    ensures var slot, r := d.pulls[t].slot, d.pulls[t].record;
      var k := Key(d.pulls[t].sha, slot);
      var saved := Apply(d, Save(slot, data, frame, None, now, ALL_WELL));
      var end := Apply(Apply(saved, PullWrite(t, now, ALL_WELL)), PullDone(t));
      && Local(saved.files, k) == Some(Copy(data, now))
      && Local(end.files, k) == Some(Copy(r.blob.data, Stamp(r)))
      && slot in end.states && end.states[slot] == Synced
  {
    var slot := d.pulls[t].slot;
    StoredCopy(d.files, Key(d.pulls[t].sha, slot), data, frame, now, None, now, ALL_WELL);
    SaveEffects(d, slot, data, frame, None, now, ALL_WELL);
    hide Local, Saved;
    ImportEnds(Apply(d, Save(slot, data, frame, None, now, ALL_WELL)), t, now);
  }

  // ---- A whole reconciliation without interruption ----

  /** The steps of one fetched result, run back to back. */
  function SlotReconciled(d: Device, t: nat, slot: int, now: int, io: Io): Device {
    var e := NextResult(d, t, slot);
    if t in e.pulls && e.pulls[t].Importing? then ImportDone(ImportWritten(e, t, now, io), t) else e
  }

  /** The fetched results handled in `order` (the dictionary may yield them in any order), with the
      outcome of each slot's file operations. */
  function ReconciledInOrder(d: Device, t: nat, order: seq<int>, now: int, io: int -> Io): Device {
    if order == [] then d
    else
      var last := order[|order| - 1];
      SlotReconciled(ReconciledInOrder(d, t, order[..|order| - 1], now, io), t, last, now, io(last))
  }

  /** A readable record is fetched that the slot needs. */
  predicate Pulls(local: Option<Copy>, f: Fetched) {
    f.Found? && f.record.blob.Readable? && NeedsPull(local, f.record)
  }

  /** What a slot holds after its result is handled: the last writer wins, unless the blob cannot
      be written; without its sidecar a pulled copy gets the stamp left behind, or the clock's. */
  function MergedCopy(files: Files, k: Key, f: Fetched, now: int, io: Io): Option<Copy> {
    if Pulls(Local(files, k), f) && io.blob
    then Some(Copy(f.record.blob.data,
                   StampLeft(files, k, Stamp(f.record), now, io)))
    else Local(files, k)
  }

  function StatusAt(states: map<int, Status>, slot: int): Option<Status> {
    if slot in states then Some(states[slot]) else None
  }

  /** What a slot shows after its result is handled. */
  function MergedStatus(before: Option<Status>, local: Option<Copy>, f: Fetched, io: Io): Option<Status> {
    match f
    case NotFound => if local.None? then None else Some(LocalOnly)
    case Found(r) =>
      if !NeedsPull(local, r) then Some(Synced)
      else if r.blob.Missing? then before
      else Some(if r.blob.Readable? && io.blob then Synced else LocalOnly)
  }

  /** Slot `k` reads the same in both, sidecar included. */
  ghost predicate SameSlot(f: Files, g: Files, k: Key) {
    Local(f, k) == Local(g, k) && (k in f.metas <==> k in g.metas) && (k in f.metas ==> f.metas[k] == g.metas[k])
  }

  ghost predicate NoRepeats(order: seq<int>) {
    forall i, j :: 0 <= i < j < |order| ==> order[i] != order[j]
  }

  lemma NextFacts(d: Device, t: nat, slot: int)
    requires t in d.pulls && d.pulls[t].Applying? && d.current == Some(d.pulls[t].sha) && slot in d.pulls[t].todo
    ensures var e, sha, todo := NextResult(d, t, slot), d.pulls[t].sha, d.pulls[t].todo;
      && t in e.pulls && e.files == d.files && e.current == d.current
      && e.pulls[t] == NextPull(Local(d.files, Key(sha, slot)), sha, slot, todo[slot], todo - {slot})
      && e.states == NextStates(d.states, Local(d.files, Key(sha, slot)), slot, todo[slot])
  {
    hide Local, NextPull, NextStates;
  }

  lemma WrittenFiles(d: Device, t: nat, now: int, io: Io)
    requires t in d.pulls && d.pulls[t].Importing?
    ensures var Importing(sha, slot, r, todo) := d.pulls[t];
      ImportWritten(d, t, now, io).files ==
        if r.blob.Readable?
        then Stored(d.files, Key(sha, slot), r.blob.data, if r.frame >= 0 then r.frame else 0, Stamp(r), r.thumb,
                    now, io)
        else d.files
  {
    hide Stored;
  }

  lemma DoneFacts(d: Device, t: nat)
    requires t in d.pulls && d.pulls[t].Imported? && d.current == Some(d.pulls[t].sha)
    ensures var e, Imported(sha, slot, ok, todo) := ImportDone(d, t), d.pulls[t];
      && t in e.pulls && e.pulls[t] == Applying(sha, todo) && e.current == d.current && e.files == d.files
      && e.states == d.states[slot := if ok then Synced else LocalOnly]
  {
  }

  lemma ImportFacts(d: Device, t: nat, now: int, io: Io)
    requires t in d.pulls && d.pulls[t].Importing? && d.current == Some(d.pulls[t].sha)
    ensures var e, Importing(sha, slot, r, todo) := ImportDone(ImportWritten(d, t, now, io), t), d.pulls[t];
      && t in e.pulls && e.pulls[t] == Applying(sha, todo) && e.current == d.current
      && e.states == d.states[slot := if r.blob.Readable? && io.blob then Synced else LocalOnly]
      && e.files == if r.blob.Readable?
                    then Stored(d.files, Key(sha, slot), r.blob.data, if r.frame >= 0 then r.frame else 0,
                                Stamp(r), r.thumb, now, io)
                    else d.files
  {
    hide Stored, ImportWritten, ImportDone;
    WriteEffects(d, t, now, io);
    WrittenFiles(d, t, now, io);
    DoneFacts(ImportWritten(d, t, now, io), t);
  }

  lemma StoredSlots(f: Files, k: Key, data: Bytes, frame: nat, stamp: int, thumb: Option<Bytes>, now: int, io: Io)
    ensures forall j :: j != k ==> SameSlot(f, Stored(f, k, data, frame, stamp, thumb, now, io), j)
  {
    StoredCopy(f, k, data, frame, stamp, thumb, now, io);
    hide Local, SlotOf;
  }

  lemma SlotReconciledFacts(d: Device, t: nat, slot: int, now: int, io: Io)
    requires t in d.pulls && d.pulls[t].Applying? && d.current == Some(d.pulls[t].sha) && slot in d.pulls[t].todo
    ensures var e, k, f := SlotReconciled(d, t, slot, now, io), Key(d.pulls[t].sha, slot), d.pulls[t].todo[slot];
      && t in e.pulls && e.pulls[t] == Applying(d.pulls[t].sha, d.pulls[t].todo - {slot}) && e.current == d.current
      && Local(e.files, k) == MergedCopy(d.files, k, f, now, io)
      && (forall j :: j != k ==> SameSlot(d.files, e.files, j))
      && (!Pulls(Local(d.files, k), f) ==> e.files == d.files)
      && StatusAt(e.states, slot) == MergedStatus(StatusAt(d.states, slot), Local(d.files, k), f, io)
      && (forall s :: s != slot ==> StatusAt(e.states, s) == StatusAt(d.states, s))
  {
    NextFacts(d, t, slot);
    hide Local, Stored, SlotOf, NextResult, ImportWritten, ImportDone, NeedsPull;
    var k, f := Key(d.pulls[t].sha, slot), d.pulls[t].todo[slot];
    var e := NextResult(d, t, slot);
    if e.pulls[t].Importing? {
      ImportFacts(e, t, now, io);
      if f.record.blob.Readable? {
        var r := f.record;
        var frame := if r.frame >= 0 then r.frame else 0;
        StoredCopy(d.files, k, r.blob.data, frame, Stamp(r), r.thumb, now, io);
        StoredSlots(d.files, k, r.blob.data, frame, Stamp(r), r.thumb, now, io);
      }
    }
  }

  /** `e` is `d` with the fetched slots of `order` merged and showing their outcomes, and with
      nothing else changed. */
  ghost predicate MergedUpTo(d: Device, e: Device, t: nat, order: seq<int>, now: int, io: int -> Io)
    requires t in d.pulls && d.pulls[t].Applying? && forall s :: s in order ==> s in d.pulls[t].todo
  {
    var sha, todo := d.pulls[t].sha, d.pulls[t].todo;
    && t in e.pulls && e.pulls[t] == Applying(sha, todo - (set s | s in order)) && e.current == d.current
    && (forall s :: s in order ==>
          && Local(e.files, Key(sha, s)) == MergedCopy(d.files, Key(sha, s), todo[s], now, io(s))
          && StatusAt(e.states, s) == MergedStatus(StatusAt(d.states, s), Local(d.files, Key(sha, s)), todo[s], io(s)))
    && (forall k: Key :: !(k.sha == sha && k.slot in order) ==> SameSlot(d.files, e.files, k))
    && (forall s :: s !in order ==> StatusAt(e.states, s) == StatusAt(d.states, s))
  }

  lemma MergesOneMore(d: Device, m: Device, t: nat, init: seq<int>, last: int, now: int, io: int -> Io)
    requires t in d.pulls && d.pulls[t].Applying? && d.current == Some(d.pulls[t].sha)
    requires last !in init && forall s :: s in init + [last] ==> s in d.pulls[t].todo
    requires (forall s :: s in init ==> s in d.pulls[t].todo) && MergedUpTo(d, m, t, init, now, io)
    requires last in d.pulls[t].todo
    ensures MergedUpTo(d, SlotReconciled(m, t, last, now, io(last)), t, init + [last], now, io)
  {
    hide Local, SlotReconciled, MergedCopy, MergedStatus, StatusAt, SameSlot, Pulls;
    var sha, todo := d.pulls[t].sha, d.pulls[t].todo;
    SlotReconciledFacts(m, t, last, now, io(last));
    var order := init + [last];
    assert forall s :: s in order <==> s in init || s == last;
    assert todo - (set s | s in init) - {last} == todo - (set s | s in order);
    var e := SlotReconciled(m, t, last, now, io(last));
    SameSlotMerges(d.files, m.files, Key(sha, last), todo[last], now, io(last));
    forall s | s in init
      ensures Local(e.files, Key(sha, s)) == MergedCopy(d.files, Key(sha, s), todo[s], now, io(s))
    {
      SameSlotReads(m.files, e.files, Key(sha, s));
    }
    forall k: Key | !(k.sha == sha && k.slot in order) ensures SameSlot(d.files, e.files, k) {
      SameSlotChains(d.files, m.files, e.files, k);
    }
  }

  /** An uninterrupted reconciliation merges every fetched slot, shows each one's outcome, and
      touches nothing else, in whatever order the results come and whichever writes fail. */
  lemma {:induction false} ReconciliationMerges(d: Device, t: nat, order: seq<int>, now: int, io: int -> Io)
    requires t in d.pulls && d.pulls[t].Applying? && d.current == Some(d.pulls[t].sha)
    requires NoRepeats(order) && forall s :: s in order ==> s in d.pulls[t].todo
    ensures MergedUpTo(d, ReconciledInOrder(d, t, order, now, io), t, order, now, io)
    decreases |order|
  {
    hide MergedUpTo, SlotReconciled;
    if order == [] {
      NothingMerged(d, t, now, io);
    } else {
      var init, last := order[..|order| - 1], order[|order| - 1];
      ReconciliationMerges(d, t, init, now, io);
      assert last !in init && order == init + [last];
      MergesOneMore(d, ReconciledInOrder(d, t, init, now, io), t, init, last, now, io);
    }
  }

  lemma NothingMerged(d: Device, t: nat, now: int, io: int -> Io)
    requires t in d.pulls && d.pulls[t].Applying?
    ensures MergedUpTo(d, d, t, [], now, io)
  {
    hide Local, MergedCopy, MergedStatus, StatusAt, SameSlot;
    assert d.pulls[t].todo - {} == d.pulls[t].todo;
    forall k: Key ensures SameSlot(d.files, d.files, k) { SlotIsItself(d.files, k); }
  }

  lemma SlotIsItself(f: Files, k: Key)
    ensures SameSlot(f, f, k)
  {
  }

  lemma SameSlotReads(f: Files, g: Files, k: Key)
    requires SameSlot(f, g, k)
    ensures Local(f, k) == Local(g, k)
  {
  }

  lemma SameSlotMerges(f: Files, g: Files, k: Key, r: Fetched, now: int, io: Io)
    requires SameSlot(f, g, k)
    ensures MergedCopy(f, k, r, now, io) == MergedCopy(g, k, r, now, io) && Local(f, k) == Local(g, k)
  {
    hide Local;
  }

  lemma SameSlotChains(f: Files, g: Files, h: Files, k: Key)
    requires SameSlot(f, g, k) && SameSlot(g, h, k)
    ensures SameSlot(f, h, k)
  {
    hide Local;
  }

  ghost predicate NothingToPull(f: Files, sha: string, order: seq<int>, todo: map<int, Fetched>) {
    forall s :: s in order && s in todo ==> !Pulls(Local(f, Key(sha, s)), todo[s])
  }

  /** A reconciliation that finds nothing to pull writes no file. */
  lemma {:induction false} NothingPulledNothingWritten(d: Device, t: nat, order: seq<int>, now: int, io: int -> Io)
    requires t in d.pulls && d.pulls[t].Applying? && d.current == Some(d.pulls[t].sha)
    requires NoRepeats(order) && forall s :: s in order ==> s in d.pulls[t].todo
    requires NothingToPull(d.files, d.pulls[t].sha, order, d.pulls[t].todo)
    ensures ReconciledInOrder(d, t, order, now, io).files == d.files
    decreases |order|
  {
    hide Local, SlotReconciled, MergedCopy, MergedStatus, StatusAt, SameSlot, Pulls;
    if order != [] {
      var init, last := order[..|order| - 1], order[|order| - 1];
      NothingPulledNothingWritten(d, t, init, now, io);
      ReconciliationMerges(d, t, init, now, io);
      assert last !in init;
      SlotReconciledFacts(ReconciledInOrder(d, t, init, now, io), t, last, now, io(last));
    }
  }

  /** Merging the same cloud content again changes nothing, asks for nothing and shows the same, if
      the first merge's writes succeed: the import keeps the record's stamp, so a record is never
      newer than the copy made from it. */
  lemma MergeIsStable(f: Files, g: Files, k: Key, r: Fetched, before: Option<Status>, now: int, io: Io, later: Io)
    requires io.blob && io.meta && Local(g, k) == MergedCopy(f, k, r, now, io)
    ensures !Pulls(Local(g, k), r)
    ensures var shown := MergedStatus(before, Local(f, k), r, io); MergedStatus(shown, Local(g, k), r, later) == shown
  {
    hide Local;
  }

  /** A second reconciliation against the same cloud, in any order, writes no file and changes no
      status. */
  lemma SecondReconciliationChangesNothing(d: Device, t: nat, order: seq<int>, u: nat, again: seq<int>,
                                           now: int, later: int, io: int -> Io, io': int -> Io)
    requires t in d.pulls && d.pulls[t].Applying? && d.current == Some(d.pulls[t].sha)
    requires NoRepeats(order) && NoRepeats(again)
    requires forall s :: s in order <==> s in d.pulls[t].todo
    requires forall s :: s in again ==> s in d.pulls[t].todo
    requires forall s :: s in order ==> io(s).blob && io(s).meta
    ensures var first := ReconciledInOrder(d, t, order, now, io);
      var next := first.(pulls := first.pulls[u := d.pulls[t]]);
      var second := ReconciledInOrder(next, u, again, later, io');
      second.files == first.files && second.states == first.states
  {
    hide Local, MergedCopy, MergedStatus, Pulls, SameSlot, ReconciledInOrder;
    var sha, todo := d.pulls[t].sha, d.pulls[t].todo;
    ReconciliationMerges(d, t, order, now, io);
    var first := ReconciledInOrder(d, t, order, now, io);
    var next := first.(pulls := first.pulls[u := d.pulls[t]]);
    forall s | s in again
      ensures !Pulls(Local(next.files, Key(sha, s)), todo[s])
      ensures MergedStatus(StatusAt(next.states, s), Local(next.files, Key(sha, s)), todo[s], io'(s))
        == StatusAt(next.states, s)
    {
      MergeIsStable(d.files, next.files, Key(sha, s), todo[s], StatusAt(d.states, s), now, io(s), io'(s));
    }
    NothingPulledNothingWritten(next, u, again, later, io');
    ReconciliationMerges(next, u, again, later, io');
    var second := ReconciledInOrder(next, u, again, later, io');
    forall s ensures StatusAt(second.states, s) == StatusAt(first.states, s) {
    }
    SameStatuses(second.states, first.states);
  }

  lemma SameStatuses(a: map<int, Status>, b: map<int, Status>)
    requires forall s :: StatusAt(a, s) == StatusAt(b, s)
    ensures a == b
  {
    forall s ensures (s in a <==> s in b) && (s in a ==> a[s] == b[s]) {
      assert StatusAt(a, s) == StatusAt(b, s);
    }
  }
}
