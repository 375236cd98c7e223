/** Several devices and one store: which interleavings of saves in flight, fetches and suspended
    imports leave every device with the newest copy of a slot. */
module CloudConvergence {
  import opened Common
  import opened SaveSlots
  import opened CloudSync

  datatype System = System(devices: seq<Device>, cloud: map<Key, Record>)

  /** A step of one device, a step of the store on behalf of one, or a device receiving a
      snapshot of the store. */
  datatype Step =
    | OnDevice(dev: nat, event: Event)
    | Fetch(dev: nat, t: nat)
    | UploadLands(dev: nat, t: nat)
    | DeleteLands(dev: nat, t: nat)

  function Snapshot(cloud: map<Key, Record>, sha: string): map<int, Fetched> {
    map slot | 0 <= slot < SLOT_COUNT :: if Key(sha, slot) in cloud then Found(cloud[Key(sha, slot)]) else NotFound
  }

  /** The event a step makes device `x.dev` take, if any. */
  function EventOf(s: System, x: Step): Option<Event>
    requires x.dev < |s.devices|
  {
    var d := s.devices[x.dev];
    match x
    case OnDevice(i, e) => if e.PullRecords? && e.results.Some? then None else Some(e)
    case Fetch(i, t) =>
      if t in d.pulls && d.pulls[t].AwaitingRecords?
      then Some(PullRecords(t, Some(Snapshot(s.cloud, d.pulls[t].sha)))) else None
    case _ => None
  }

  function Advance(s: System, x: Step): System {
    if x.dev >= |s.devices| then s
    else
      var d := s.devices[x.dev];
      match x
      case UploadLands(i, t) =>
        if t in d.uploads && d.uploads[t].Sending?
        then s.(cloud := s.cloud[d.uploads[t].key := d.uploads[t].record])
        else s
      case DeleteLands(i, t) =>
        if t in d.deletes
        then s.(cloud := s.cloud - {d.deletes[t]}, devices := s.devices[i := d.(deletes := d.deletes - {t})])
        else s
      case _ =>
        var e := EventOf(s, x);
        if e.Some? then s.(devices := s.devices[x.dev := Apply(d, e.value)]) else s
  }

  // ---- The greatest copy ----

  /** What installing a record leaves in a slot. */
  function CopyOf(r: Record): Copy
    requires r.blob.Readable?
  {
    Copy(r.blob.data, Stamp(r))
  }

  /** Not newer than `r`, and equal stamps mean equal blobs. */
  ghost predicate Under(c: Record, r: Record)
    requires r.blob.Readable?
  {
    Stamp(c) <= Stamp(r) && (Stamp(c) == Stamp(r) && c.blob.Readable? ==> CopyOf(c) == CopyOf(r))
  }

  ghost predicate CopyUnder(c: Copy, r: Record)
    requires r.blob.Readable?
  {
    c.stamp <= Stamp(r) && (c.stamp == Stamp(r) ==> c == CopyOf(r))
  }

  /** Pull task `p` still holds record `c` for slot `k`. */
  predicate InHand(p: Pull, k: Key, c: Record) {
    match p
    case Applying(sha, todo) => sha == k.sha && k.slot in todo && todo[k.slot] == Found(c)
    case Importing(sha, slot, record, todo) =>
      sha == k.sha && ((slot == k.slot && record == c) || (k.slot in todo && todo[k.slot] == Found(c)))
    case Imported(sha, slot, ok, todo) => sha == k.sha && k.slot in todo && todo[k.slot] == Found(c)
    case _ => false
  }

  /** Every copy of `k` on the device, in its files, in a fetch or in an upload, is under `r`. */
  ghost predicate Bounded(d: Device, k: Key, r: Record)
    requires r.blob.Readable?
  {
    && FreshIds(d) && SendsItsStamp(d)
    && (forall t, c :: t in d.pulls && InHand(d.pulls[t], k, c) ==> Under(c, r))
    && (forall t :: t in d.uploads && d.uploads[t].Sending? && d.uploads[t].key == k ==> Under(d.uploads[t].record, r))
    && (Local(d.files, k).Some? ==>
          CopyUnder(Local(d.files, k).value, r))
  }

  /** `r` carries the greatest stamp of slot `k` anywhere, and equal stamps mean equal blobs. */
  ghost predicate Greatest(s: System, k: Key, r: Record) {
    && r.blob.Readable? && (k in s.cloud ==> Under(s.cloud[k], r))
    && forall i :: 0 <= i < |s.devices| ==> Bounded(s.devices[i], k, r)
  }

  /** The copy an import's write leaves in its slot. */
  function Landed(d: Device, e: Event): Copy
    requires e.PullWrite? && e.t in d.pulls && d.pulls[e.t].Importing? && d.pulls[e.t].record.blob.Readable?
  {
    var Importing(sha, slot, c, todo) := d.pulls[e.t];
    Copy(c.blob.data, StampLeft(d.files, Key(sha, slot), Stamp(c), e.now, e.io))
  }

  /** A clear of `k` that cannot remove the blob but removes the sidecar: the copy gets its file date. */
  ghost predicate Redates(d: Device, e: Event, k: Key) {
    e.Clear? && Touches(d, e, k) && !e.io.blob && e.io.meta && k in d.files.blobs && d.files.blobs[k].modified.Some?
  }

  /** An import without its sidecar, or a clear of the sidecar alone, that leaves a copy of `k` not
      under `r`. */
  ghost predicate Inflates(d: Device, e: Event, k: Key, r: Record)
    requires r.blob.Readable?
  {
    (ImportsInto(d, e, k) && !CopyUnder(Landed(d, e), r))
    || (Redates(d, e, k) && !CopyUnder(Copy(d.files.blobs[k].data, d.files.blobs[k].modified.value), r))
  }

  /** A step of the system that neither saves `k` nor inflates a stamp of it: every device may clear
      it, uploads and deletes in flight may land. */
  ghost predicate QuietStep(s: System, x: Step, k: Key, r: Record)
    requires r.blob.Readable?
  {
    NoSave(s, x, k) && !InflatesStep(s, x, k, r)
  }

  ghost predicate NoSave(s: System, x: Step, k: Key) {
    x.OnDevice? && x.dev < |s.devices| ==> !SavesSlot(s.devices[x.dev], x.event, k)
  }

  ghost predicate InflatesStep(s: System, x: Step, k: Key, r: Record)
    requires r.blob.Readable?
  {
    x.OnDevice? && x.dev < |s.devices| && Inflates(s.devices[x.dev], x.event, k, r)
  }

  ghost predicate Converged(d: Device, k: Key, r: Record)
    requires r.blob.Readable?
  {
    Local(d.files, k) == Some(CopyOf(r))
  }

  /** An import of `k` is suspended, past its comparison, with another copy than `r`'s. */
  ghost predicate StaleImport(p: Pull, k: Key, r: Record)
    requires r.blob.Readable?
  {
    p.Importing? && Key(p.sha, p.slot) == k && p.record.blob.Readable? && CopyOf(p.record) != CopyOf(r)
  }

  ghost predicate NoStaleImport(d: Device, k: Key, r: Record)
    requires r.blob.Readable?
  {
    forall t :: t in d.pulls ==> !StaleImport(d.pulls[t], k, r)
  }

  /** The file write of an import that leaves another copy. */
  ghost predicate StaleWrite(d: Device, e: Event, k: Key, r: Record)
    requires r.blob.Readable?
  {
    ImportsInto(d, e, k) && Landed(d, e) != CopyOf(r)
  }

  /** A clear that takes `r`'s copy of `k` away, or its stamp. */
  ghost predicate ClearsAway(d: Device, e: Event, k: Key, r: Record) {
    e.Clear? && Touches(d, e, k)
    && (e.io.blob || (e.io.meta && k in d.files.blobs && d.files.blobs[k].modified != Some(Stamp(r))))
  }

  /** An import into `k` whose sidecar is not written and whose stamp is lost with it. */
  ghost predicate LosesStamp(d: Device, e: Event, k: Key) {
    ImportsInto(d, e, k) && Landed(d, e).stamp != Stamp(d.pulls[e.t].record)
  }

  ghost predicate Disturbs(d: Device, e: Event, k: Key, r: Record) {
    ClearsAway(d, e, k, r) || LosesStamp(d, e, k)
  }

  /** The device holds `r`'s copy and nothing suspended can replace it. */
  ghost predicate Settled(d: Device, k: Key, r: Record)
    requires r.blob.Readable?
  {
    Converged(d, k, r) && NoStaleImport(d, k, r)
  }

  /** The event at which a device finishes reconciling `k` with a record that carries `r`'s stamp:
      it finds its copy current, or its import succeeds. */
  ghost predicate Reconciles(d: Device, e: Event, k: Key, r: Record) {
    match e
    case PullNext(t, slot) =>
      && t in d.pulls && d.pulls[t].Applying? && Key(d.pulls[t].sha, slot) == k && slot in d.pulls[t].todo
      && d.current == Some(k.sha) && d.pulls[t].todo[slot].Found? && Stamp(d.pulls[t].todo[slot].record) == Stamp(r)
      && !NeedsPull(Local(d.files, k), d.pulls[t].todo[slot].record)
    case PullWrite(t, now, io) =>
      ImportsInto(d, e, k) && !LosesStamp(d, e, k) && Stamp(d.pulls[t].record) == Stamp(r)
    case _ => false
  }

  // ---- One device ----

  /** Exactly the write of another copy and an effective clear take a converged device away from
      `r`'s copy. */
  lemma ConvergedStaysIff(d: Device, e: Event, k: Key, r: Record)
    requires r.blob.Readable? && Converged(d, k, r) && !SavesSlot(d, e, k)
    ensures Converged(Apply(d, e), k, r) <==> !StaleWrite(d, e, k, r) && !ClearsAway(d, e, k, r)
  {
    if !Touches(d, e, k) {
      OthersLeaveTheSlotAlone(d, e, k);
    } else if e.PullWrite? {
      WriteInstalls(d, e, k);
    } else {
      ClearLeaves(d, e.slot, e.io);
    }
    hide Apply;
  }

  /** What an import's write leaves in its slot. */
  lemma WriteInstalls(d: Device, e: Event, k: Key)
    requires e.PullWrite? && Touches(d, e, k)
    ensures Local(Apply(d, e).files, k) == if ImportsInto(d, e, k) then Some(Landed(d, e)) else Local(d.files, k)
  {
    var Importing(sha, slot, c, todo) := d.pulls[e.t];
    hide Local, Stored, SlotOf, StampLeft;
    if c.blob.Readable? {
      StoredCopy(d.files, k, c.blob.data, if c.frame >= 0 then c.frame else 0, Stamp(c), c.thumb, e.now, e.io);
    }
  }

  /** What a clear leaves in its slot. */
  lemma ClearLeaves(d: Device, slot: int, io: Io)
    requires d.current.Some?
    ensures var k := Key(d.current.value, slot);
      Local(Apply(d, Clear(slot, io)).files, k) ==
        if io.blob || k !in d.files.blobs then None
        else if !io.meta then Local(d.files, k)
        else if d.files.blobs[k].modified.None? then None
        else Some(Copy(d.files.blobs[k].data, d.files.blobs[k].modified.value))
  {
  }

  lemma InHandAfterNext(d: Device, t: nat, slot: int, k: Key, c: Record)
    requires t in d.pulls && t in NextResult(d, t, slot).pulls && InHand(NextResult(d, t, slot).pulls[t], k, c)
    ensures InHand(d.pulls[t], k, c)
  {
    NextEffects(d, t, slot);
    hide NextResult, NeedsPull;
  }

  lemma InHandAfterWrite(d: Device, t: nat, now: int, io: Io, k: Key, c: Record)
    requires t in d.pulls && InHand(ImportWritten(d, t, now, io).pulls[t], k, c)
    ensures InHand(d.pulls[t], k, c)
  {
    WriteEffects(d, t, now, io);
    hide ImportWritten;
  }

  lemma InHandAfterAccount(d: Device, t: nat, available: bool, k: Key, c: Record)
    requires t in d.pulls && t in AccountForPull(d, t, available).pulls
    requires InHand(AccountForPull(d, t, available).pulls[t], k, c)
    ensures InHand(d.pulls[t], k, c)
  {
    AccountEffects(d, t, available);
    hide AccountForPull;
  }

  lemma InHandAfterRecords(d: Device, t: nat, results: Option<map<int, Fetched>>, k: Key, c: Record)
    requires t in d.pulls && t in RecordsArrived(d, t, results).pulls
    requires InHand(RecordsArrived(d, t, results).pulls[t], k, c)
    ensures InHand(d.pulls[t], k, c)
      || (d.pulls[t] == AwaitingRecords(k.sha) && results.Some? && k.slot in results.value
          && results.value[k.slot] == Found(c))
  {
  }

  lemma InHandAfterDone(d: Device, t: nat, k: Key, c: Record)
    requires t in d.pulls && InHand(ImportDone(d, t).pulls[t], k, c)
    ensures InHand(d.pulls[t], k, c)
  {
  }

  lemma InHandAfterStart(d: Device, t: nat, k: Key, c: Record)
    requires t in d.pulls && t in Started(d, t).pulls && InHand(Started(d, t).pulls[t], k, c)
    ensures InHand(d.pulls[t], k, c)
  {
  }

  /** A record in hand after an event was in hand before, or has just been fetched. */
  lemma StillInHand(d: Device, e: Event, k: Key, t: nat, c: Record)
    requires FreshIds(d) && t in Apply(d, e).pulls && InHand(Apply(d, e).pulls[t], k, c)
    ensures (t in d.pulls && InHand(d.pulls[t], k, c))
      || (e.PullRecords? && e.t == t && t in d.pulls && d.pulls[t] == AwaitingRecords(k.sha)
          && e.results.Some? && k.slot in e.results.value && e.results.value[k.slot] == Found(c))
  {
    TasksStepped(d, e);
    if t in d.pulls && Some(t) == TaskOf(e) {
      hide InHand, NextResult, ImportWritten, AccountForPull, RecordsArrived, ImportDone, Started, FreshIds, TasksStep;
      match e
      case PullStart(_) => InHandAfterStart(d, t, k, c);
      case PullAccount(_, available) => InHandAfterAccount(d, t, available, k, c);
      case PullRecords(_, results) => InHandAfterRecords(d, t, results, k, c);
      case PullNext(_, slot) => InHandAfterNext(d, t, slot, k, c);
      case PullWrite(_, now, io) => InHandAfterWrite(d, t, now, io, k, c);
      case PullDone(_) => InHandAfterDone(d, t, k, c);
    }
  }

  /** An import is suspended only for a record that was in hand and needed pulling. */
  lemma ImportStarts(d: Device, e: Event, k: Key, t: nat)
    requires FreshIds(d) && t in Apply(d, e).pulls
    requires var p := Apply(d, e).pulls[t]; p.Importing? && Key(p.sha, p.slot) == k
    ensures var p := Apply(d, e).pulls[t];
      t in d.pulls && (d.pulls[t] == p || (InHand(d.pulls[t], k, p.record) && NeedsPull(Local(d.files, k), p.record)))
  {
    TasksStepped(d, e);
    if t in d.pulls && Some(t) == TaskOf(e) {
      hide InHand, NextResult, ImportWritten, AccountForPull, RecordsArrived, ImportDone, Started, FreshIds, TasksStep,
           Local, NeedsPull;
      match e
      case PullStart(_) => StartEffects(d, t);
      case PullAccount(_, available) => AccountEffects(d, t, available);
      case PullRecords(_, results) => RecordsEffects(d, t, results);
      case PullNext(_, slot) =>
        if NextResult(d, t, slot).pulls[t] != d.pulls[t] { ImportStartsAtNext(d, t, slot, k); }
      case PullWrite(_, now, io) => WriteEffects(d, t, now, io);
      case PullDone(_) => DoneEffects(d, t);
    }
  }

  lemma ImportStartsAtNext(d: Device, t: nat, slot: int, k: Key)
    requires t in d.pulls && t in NextResult(d, t, slot).pulls
    requires var p := NextResult(d, t, slot).pulls[t]; p.Importing? && Key(p.sha, p.slot) == k && p != d.pulls[t]
    ensures var p := NextResult(d, t, slot).pulls[t];
      InHand(d.pulls[t], k, p.record) && NeedsPull(Local(d.files, k), p.record)
  {
    NextEffects(d, t, slot);
    hide NextResult, Local, NeedsPull;
  }

  /** A settled device stays settled, whatever older records are fetched or still in hand, unless its
      copy is cleared or loses its stamp: they are no longer newer than its copy. */
  lemma SettledStaysIff(d: Device, e: Event, k: Key, r: Record)
    requires r.blob.Readable? && Settled(d, k, r) && Bounded(d, k, r) && !SavesSlot(d, e, k)
    ensures Settled(Apply(d, e), k, r) <==> !Disturbs(d, e, k, r)
  {
    hide Apply, Local, StampLeft;
    ConvergedStaysIff(d, e, k, r);
    if ImportsInto(d, e, k) { assert !StaleImport(d.pulls[e.t], k, r); }
    var g := Apply(d, e);
    forall t | t in g.pulls ensures !StaleImport(g.pulls[t], k, r) {
      if g.pulls[t].Importing? && Key(g.pulls[t].sha, g.pulls[t].slot) == k {
        ImportStarts(d, e, k, t);
        assert !InHand(d.pulls[t], k, g.pulls[t].record) || Under(g.pulls[t].record, r);
      }
    }
  }

  lemma ReconcilingConverges(d: Device, e: Event, k: Key, r: Record)
    requires r.blob.Readable? && Bounded(d, k, r) && Reconciles(d, e, k, r)
    ensures Converged(Apply(d, e), k, r)
  {
    hide Apply, StampLeft;
    if e.PullWrite? {
      ImportIsUnder(d, e, k, r);
      WriteInstalls(d, e, k);
    } else {
      OthersLeaveTheSlotAlone(d, e, k);
    }
  }

  lemma ImportIsUnder(d: Device, e: Event, k: Key, r: Record)
    requires r.blob.Readable? && Bounded(d, k, r) && e.PullWrite? && Touches(d, e, k)
    ensures Under(d.pulls[e.t].record, r)
  {
    assert Key(d.pulls[e.t].sha, d.pulls[e.t].slot) == k;
    assert InHand(d.pulls[e.t], k, d.pulls[e.t].record);
  }

  lemma UploadRecordIsUnder(d: Device, k: Key, r: Record)
    requires r.blob.Readable? && Bounded(d, k, r) && Local(d.files, k).Some?
    ensures Under(UploadRecord(d.files, k), r)
  {
  }

  /** What the event fetches of `k`, if anything, is under `r`. */
  ghost predicate FetchesUnder(d: Device, e: Event, k: Key, r: Record)
    requires r.blob.Readable?
  {
    e.PullRecords? && e.results.Some? && e.t in d.pulls && d.pulls[e.t] == AwaitingRecords(k.sha)
    && k.slot in e.results.value && e.results.value[k.slot].Found?
    ==> Under(e.results.value[k.slot].record, r)
  }

  /** A step that does not save `k` keeps `r` the greatest copy on the device if and only if it leaves
      no inflated one. */
  lemma BoundedStaysIff(d: Device, e: Event, k: Key, r: Record)
    requires r.blob.Readable? && Bounded(d, k, r) && !SavesSlot(d, e, k)
    requires FetchesUnder(d, e, k, r)
    ensures Bounded(Apply(d, e), k, r) <==> !Inflates(d, e, k, r)
  {
    CopyStaysUnderIff(d, e, k, r);
    hide Apply, FreshIds, SendsItsStamp, Inflates, CopyUnder;
    TasksStepped(d, e);
    SendsItsStampStep(d, e);
    var g := Apply(d, e);
    forall t | t in g.uploads && g.uploads[t].Sending? && g.uploads[t].key == k ensures Under(g.uploads[t].record, r) {
      SendingStarts(d, e, t);
      if Local(d.files, k).Some? { UploadRecordIsUnder(d, k, r); }
    }
    forall t, c | t in g.pulls && InHand(g.pulls[t], k, c) ensures Under(c, r) {
      StillInHand(d, e, k, t, c);
    }
  }

  lemma CopyStaysUnderIff(d: Device, e: Event, k: Key, r: Record)
    requires r.blob.Readable? && Bounded(d, k, r) && !SavesSlot(d, e, k)
    ensures var c := Local(Apply(d, e).files, k); (c.Some? ==> CopyUnder(c.value, r)) <==> !Inflates(d, e, k, r)
  {
    hide CopyUnder, InHand, StampLeft;
    if !Touches(d, e, k) {
      OthersLeaveTheSlotAlone(d, e, k);
    } else if e.PullWrite? {
      WriteInstalls(d, e, k);
    } else {
      ClearLeaves(d, e.slot, e.io);
    }
    hide Apply;
  }

  // ---- Runs of the system ----

  lemma SnapshotIsUnder(s: System, x: Step, k: Key, r: Record)
    requires Greatest(s, k, r) && x.dev < |s.devices| && EventOf(s, x).Some?
    ensures FetchesUnder(s.devices[x.dev], EventOf(s, x).value, k, r)
  {
    hide Bounded, Under;
  }

  /** Device `i` loses `r`'s copy: it writes another one, or clears it. */
  ghost predicate Displaces(s: System, x: Step, i: nat, k: Key, r: Record)
    requires r.blob.Readable? && i < |s.devices|
  {
    x.OnDevice? && x.dev == i
    && (StaleWrite(s.devices[i], x.event, k, r) || ClearsAway(s.devices[i], x.event, k, r))
  }

  /** On device `i` the slot is cleared, or an import into it loses its stamp. */
  ghost predicate DisturbsStep(s: System, x: Step, i: nat, k: Key, r: Record)
    requires i < |s.devices|
  {
    x.OnDevice? && x.dev == i && Disturbs(s.devices[i], x.event, k, r)
  }

  ghost predicate ReconcileStep(s: System, x: Step, i: nat, k: Key, r: Record)
    requires i < |s.devices|
  {
    x.OnDevice? && x.dev == i && Reconciles(s.devices[i], x.event, k, r)
  }

  /** What a step does to device `i`: an event of its own, or nothing that its files or its pulls
      would notice. */
  lemma DeviceStep(s: System, x: Step, i: nat, k: Key)
    requires i < |s.devices| && NoSave(s, x, k)
    ensures |Advance(s, x).devices| == |s.devices|
    ensures var d, g := s.devices[i], Advance(s, x).devices[i];
      if x.dev == i && EventOf(s, x).Some?
      then g == Apply(d, EventOf(s, x).value) && !SavesSlot(d, EventOf(s, x).value, k)
           && (x.OnDevice? ==> x.event == EventOf(s, x).value)
           && (!x.OnDevice? ==> EventOf(s, x).value.PullRecords?)
      else g == d.(deletes := g.deletes) && (x.OnDevice? && x.dev == i ==> x.event.PullRecords?)
  {
    hide Apply;
  }

  /** Deletes in flight do not matter to a device's own copy. */
  lemma DeletesDoNotMatter(d: Device, g: Device, k: Key, r: Record)
    requires r.blob.Readable? && g == d.(deletes := g.deletes)
    ensures Bounded(d, k, r) ==> Bounded(g, k, r)
    ensures Converged(d, k, r) == Converged(g, k, r) && Settled(d, k, r) == Settled(g, k, r)
  {
    hide Local, Under, InHand;
  }

  /** `r` stays the greatest copy in a step without a save of `k` if and only if the step leaves no
      inflated one. */
  lemma GreatestStaysIff(s: System, x: Step, k: Key, r: Record)
    requires Greatest(s, k, r) && NoSave(s, x, k)
    ensures |Advance(s, x).devices| == |s.devices|
    ensures Greatest(Advance(s, x), k, r) <==> !InflatesStep(s, x, k, r)
  {
    if x.dev < |s.devices| {
      assert Bounded(s.devices[x.dev], k, r);
      hide Apply, Bounded, Under, Inflates;
      var g := Advance(s, x);
      forall i | 0 <= i < |s.devices|
        ensures Bounded(g.devices[i], k, r) <==> !(x.dev == i && InflatesStep(s, x, k, r))
      {
        DeviceBoundedIff(s, x, i, k, r);
      }
      assert Bounded(g.devices[x.dev], k, r) <==> !InflatesStep(s, x, k, r);
    }
  }

  lemma DeviceBoundedIff(s: System, x: Step, i: nat, k: Key, r: Record)
    requires Greatest(s, k, r) && NoSave(s, x, k) && i < |s.devices|
    ensures |Advance(s, x).devices| == |s.devices|
    ensures Bounded(Advance(s, x).devices[i], k, r) <==> !(x.dev == i && InflatesStep(s, x, k, r))
  {
    assert Bounded(s.devices[i], k, r);
    hide Apply, Bounded, Under, Landed, Touches, Advance;
    DeviceStep(s, x, i, k);
    if x.dev == i && EventOf(s, x).Some? {
      SnapshotIsUnder(s, x, k, r);
      BoundedStaysIff(s.devices[i], EventOf(s, x).value, k, r);
    } else {
      DeletesDoNotMatter(s.devices[i], Advance(s, x).devices[i], k, r);
    }
  }

  lemma GreatestStays(s: System, x: Step, k: Key, r: Record)
    requires Greatest(s, k, r) && QuietStep(s, x, k, r)
    ensures Greatest(Advance(s, x), k, r) && |Advance(s, x).devices| == |s.devices|
  {
    hide Greatest, Advance, NoSave, InflatesStep;
    GreatestStaysIff(s, x, k, r);
  }

  /** A converged device leaves `r`'s copy in a step without a save if and only if that step writes
      another copy on it or clears it. */
  lemma ConvergedStepIff(s: System, x: Step, i: nat, k: Key, r: Record)
    requires Greatest(s, k, r) && NoSave(s, x, k) && i < |s.devices| && Converged(s.devices[i], k, r)
    ensures |Advance(s, x).devices| == |s.devices|
    ensures Converged(Advance(s, x).devices[i], k, r) <==> !Displaces(s, x, i, k, r)
  {
    hide Apply, Bounded, Converged, Advance, Landed, Touches;
    DeviceStep(s, x, i, k);
    if x.dev == i && EventOf(s, x).Some? {
      ConvergedStaysIff(s.devices[i], EventOf(s, x).value, k, r);
    } else {
      DeletesDoNotMatter(s.devices[i], Advance(s, x).devices[i], k, r);
    }
  }

  lemma SettledStepIff(s: System, x: Step, i: nat, k: Key, r: Record)
    requires Greatest(s, k, r) && NoSave(s, x, k) && i < |s.devices| && Settled(s.devices[i], k, r)
    ensures |Advance(s, x).devices| == |s.devices|
    ensures Settled(Advance(s, x).devices[i], k, r) <==> !DisturbsStep(s, x, i, k, r)
  {
    assert Bounded(s.devices[i], k, r);
    hide Apply, Bounded, Settled, Advance, Landed, Touches;
    DeviceStep(s, x, i, k);
    if x.dev == i && EventOf(s, x).Some? {
      SettledStaysIff(s.devices[i], EventOf(s, x).value, k, r);
    } else {
      DeletesDoNotMatter(s.devices[i], Advance(s, x).devices[i], k, r);
    }
  }

  lemma ReconcileStepConverges(s: System, x: Step, i: nat, k: Key, r: Record)
    requires Greatest(s, k, r) && NoSave(s, x, k) && i < |s.devices| && ReconcileStep(s, x, i, k, r)
    ensures |Advance(s, x).devices| == |s.devices| && Converged(Advance(s, x).devices[i], k, r)
  {
    assert Bounded(s.devices[i], k, r);
    hide Apply, Bounded, Advance, Landed, Touches;
    DeviceStep(s, x, i, k);
    ReconcilingConverges(s.devices[i], x.event, k, r);
  }

  ghost function RunAll(s: System, xs: seq<Step>): System
    decreases |xs|
  {
    if xs == [] then s else RunAll(Advance(s, xs[0]), xs[1..])
  }

  ghost predicate QuietRun(s: System, xs: seq<Step>, k: Key, r: Record)
    requires r.blob.Readable?
    decreases |xs|
  {
    xs == [] || (QuietStep(s, xs[0], k, r) && QuietRun(Advance(s, xs[0]), xs[1..], k, r))
  }

  /** Nobody clears the slot on device `i`, and no import into it there loses its stamp. */
  ghost predicate Undisturbed(s: System, xs: seq<Step>, i: nat, k: Key, r: Record)
    decreases |xs|
  {
    xs == []
    || (i < |s.devices| && !DisturbsStep(s, xs[0], i, k, r) && Undisturbed(Advance(s, xs[0]), xs[1..], i, k, r))
  }

  /** Somewhere in the run device `i` reconciles `k` with `r`, is then free of stale imports, and is
      not disturbed afterwards. */
  ghost predicate SettlesDuring(s: System, xs: seq<Step>, i: nat, k: Key, r: Record)
    requires r.blob.Readable?
    decreases |xs|
  {
    xs != [] &&
    var t := Advance(s, xs[0]);
    (i < |s.devices| && i < |t.devices| && ReconcileStep(s, xs[0], i, k, r) && NoStaleImport(t.devices[i], k, r)
     && Undisturbed(t, xs[1..], i, k, r))
    || SettlesDuring(t, xs[1..], i, k, r)
  }

  ghost predicate IsSafe(s: System, xs: seq<Step>, i: nat, k: Key, r: Record)
    requires r.blob.Readable? && i < |s.devices|
  {
    (Settled(s.devices[i], k, r) && Undisturbed(s, xs, i, k, r)) || SettlesDuring(s, xs, i, k, r)
  }

  /** Convergence: let `r` carry the greatest stamp of a slot. Over every interleaving of n devices'
      steps with no new save of that slot and no inflated stamp, whatever older records are still
      fetched, uploaded or deleted meanwhile and whichever devices clear it, every device that
      reconciles with `r`, with no import of another copy suspended at that moment, and is not
      disturbed afterwards holds `r`'s copy at the end. */
  lemma {:induction false} DevicesConverge(s: System, xs: seq<Step>, k: Key, r: Record)
    requires Greatest(s, k, r) && QuietRun(s, xs, k, r)
    ensures var e := RunAll(s, xs);
      && Greatest(e, k, r) && |e.devices| == |s.devices|
      && forall i :: 0 <= i < |s.devices| && IsSafe(s, xs, i, k, r) ==> Settled(e.devices[i], k, r)
    decreases |xs|
  {
    hide Greatest, Settled, Advance, NoSave, InflatesStep, ReconcileStep, NoStaleImport, DisturbsStep;
    assert r.blob.Readable? by { GreatestIsReadable(s, k, r); }
    if xs != [] {
      var t := Advance(s, xs[0]);
      GreatestStays(s, xs[0], k, r);
      DevicesConverge(t, xs[1..], k, r);
      forall i | 0 <= i < |s.devices| && IsSafe(s, xs, i, k, r)
        ensures Settled(RunAll(s, xs).devices[i], k, r)
      {
        SafetyGoesOn(s, xs, i, k, r);
      }
    }
  }

  lemma SafetyGoesOn(s: System, xs: seq<Step>, i: nat, k: Key, r: Record)
    requires Greatest(s, k, r) && QuietRun(s, xs, k, r) && xs != [] && i < |s.devices| && IsSafe(s, xs, i, k, r)
    ensures |Advance(s, xs[0]).devices| == |s.devices| && IsSafe(Advance(s, xs[0]), xs[1..], i, k, r)
  {
    hide Greatest, Settled, Advance, NoSave, InflatesStep, ReconcileStep, NoStaleImport, DisturbsStep;
    var t := Advance(s, xs[0]);
    assert r.blob.Readable? by { GreatestIsReadable(s, k, r); }
    GreatestStays(s, xs[0], k, r);
    if Settled(s.devices[i], k, r) && Undisturbed(s, xs, i, k, r) {
      SettledStepIff(s, xs[0], i, k, r);
    } else if ReconcileStep(s, xs[0], i, k, r) && NoStaleImport(t.devices[i], k, r) {
      ReconcileStepConverges(s, xs[0], i, k, r);
      SettledIs(t.devices[i], k, r);
    }
  }

  lemma GreatestIsReadable(s: System, k: Key, r: Record)
    requires Greatest(s, k, r)
    ensures r.blob.Readable?
  {
  }

  lemma SettledIs(d: Device, k: Key, r: Record)
    requires r.blob.Readable?
    ensures Settled(d, k, r) <==> Converged(d, k, r) && NoStaleImport(d, k, r)
  {
  }

  /** Device `i` holds `r`'s copy at every state of the run. */
  ghost predicate StaysConverged(s: System, xs: seq<Step>, i: nat, k: Key, r: Record)
    requires r.blob.Readable?
    decreases |xs|
  {
    i < |s.devices| && Converged(s.devices[i], k, r)
    && (xs == [] || StaysConverged(Advance(s, xs[0]), xs[1..], i, k, r))
  }

  ghost predicate NeverDisplaced(s: System, xs: seq<Step>, i: nat, k: Key, r: Record)
    requires r.blob.Readable?
    decreases |xs|
  {
    xs == []
    || (i < |s.devices| && !Displaces(s, xs[0], i, k, r) && NeverDisplaced(Advance(s, xs[0]), xs[1..], i, k, r))
  }

  /** A converged device keeps `r`'s copy through a run if and only if the run neither writes another
      copy on it nor clears it. */
  lemma {:induction false} StaysConvergedIff(s: System, xs: seq<Step>, i: nat, k: Key, r: Record)
    requires Greatest(s, k, r) && QuietRun(s, xs, k, r) && i < |s.devices| && Converged(s.devices[i], k, r)
    ensures StaysConverged(s, xs, i, k, r) <==> NeverDisplaced(s, xs, i, k, r)
    decreases |xs|
  {
    hide Greatest, Converged, Advance, NoSave, InflatesStep, Displaces;
    GreatestIsReadable(s, k, r);
    if xs != [] {
      GreatestStays(s, xs[0], k, r);
      ConvergedStepIff(s, xs[0], i, k, r);
      var t := Advance(s, xs[0]);
      if Converged(t.devices[i], k, r) { StaysConvergedIff(t, xs[1..], i, k, r); }
    }
  }

  /** A converged device is safe in every quiet future that does not disturb it if and only if no
      import of another copy is suspended on it now. */
  lemma SafeIffSettled(s: System, i: nat, k: Key, r: Record)
    requires Greatest(s, k, r) && i < |s.devices| && Converged(s.devices[i], k, r)
    ensures (forall xs :: QuietRun(s, xs, k, r) && Undisturbed(s, xs, i, k, r) ==>
               |RunAll(s, xs).devices| == |s.devices| && Converged(RunAll(s, xs).devices[i], k, r))
      <==> Settled(s.devices[i], k, r)
  {
    var d := s.devices[i];
    assert Bounded(d, k, r);
    hide Greatest, Bounded, Advance, QuietRun, Undisturbed, RunAll, Converged;
    if Settled(d, k, r) {
      forall xs | QuietRun(s, xs, k, r) && Undisturbed(s, xs, i, k, r)
        ensures |RunAll(s, xs).devices| == |s.devices| && Converged(RunAll(s, xs).devices[i], k, r)
      {
        DevicesConverge(s, xs, k, r);
      }
    } else {
      var t :| t in d.pulls && StaleImport(d.pulls[t], k, r);
      var x := OnDevice(i, PullWrite(t, 0, ALL_WELL));
      ImportIsUnder(d, x.event, k, r);
      ConvergedStepIff(s, x, i, k, r);
      OneStepRun(s, x, i, k, r);
      assert !Converged(RunAll(s, [x]).devices[i], k, r);
    }
  }

  lemma OneStepRun(s: System, x: Step, i: nat, k: Key, r: Record)
    requires r.blob.Readable? && i < |s.devices|
    ensures RunAll(s, [x]) == Advance(s, x)
    ensures QuietRun(s, [x], k, r) <==> QuietStep(s, x, k, r)
    ensures Undisturbed(s, [x], i, k, r) <==> !DisturbsStep(s, x, i, k, r)
  {
    hide Advance, QuietStep, DisturbsStep;
    assert [x][1..] == [];
  }

  // ---- The cloud ----

  ghost predicate CloudCarries(s: System, k: Key, r: Record)
    requires r.blob.Readable?
  {
    k in s.cloud && s.cloud[k].blob.Readable? && CopyOf(s.cloud[k]) == CopyOf(r)
  }

  /** An upload of `k` with an older stamp than the cloud's lands, or a delete of `k` does. */
  predicate Dethrones(s: System, x: Step, k: Key) {
    x.dev < |s.devices|
    && var d := s.devices[x.dev];
       match x
       case UploadLands(_, t) =>
         t in d.uploads && d.uploads[t].Sending? && d.uploads[t].key == k
         && k in s.cloud && Stamp(d.uploads[t].record) < Stamp(s.cloud[k])
       case DeleteLands(_, t) => t in d.deletes && d.deletes[t] == k
       case _ => false
  }

  /** The store keeps the greatest copy in a quiet step if and only if no older upload, and no delete,
      of the slot lands: uploads overwrite whatever is there. */
  lemma CloudKeepsTheCopyIff(s: System, x: Step, k: Key, r: Record)
    requires Greatest(s, k, r) && CloudCarries(s, k, r)
    ensures CloudCarries(Advance(s, x), k, r) <==> !Dethrones(s, x, k)
  {
    hide Apply, InHand, Local;
    if x.dev < |s.devices| { assert Bounded(s.devices[x.dev], k, r); }
  }

  /** No step of any kind takes a slot out of the store or lowers its stamp, but a delete of it or an
      older upload that lands. */
  lemma CloudStampKeptIff(s: System, x: Step, k: Key)
    requires k in s.cloud
    ensures var e := Advance(s, x); k in e.cloud && Stamp(e.cloud[k]) >= Stamp(s.cloud[k]) <==> !Dethrones(s, x, k)
  {
    hide Apply;
  }

  ghost predicate NeverDethroned(s: System, xs: seq<Step>, k: Key)
    decreases |xs|
  {
    xs == [] || (!Dethrones(s, xs[0], k) && NeverDethroned(Advance(s, xs[0]), xs[1..], k))
  }

  /** The store holds `r`'s copy at every state of the run. */
  ghost predicate CarriesThroughout(s: System, xs: seq<Step>, k: Key, r: Record)
    requires r.blob.Readable?
    decreases |xs|
  {
    CloudCarries(s, k, r) && (xs == [] || CarriesThroughout(Advance(s, xs[0]), xs[1..], k, r))
  }

  /** Over a quiet run the store keeps the greatest copy if and only if no older upload, and no delete,
      of the slot ever lands. */
  lemma {:induction false} CloudStaysIff(s: System, xs: seq<Step>, k: Key, r: Record)
    requires Greatest(s, k, r) && QuietRun(s, xs, k, r) && CloudCarries(s, k, r)
    ensures CarriesThroughout(s, xs, k, r) <==> NeverDethroned(s, xs, k)
    decreases |xs|
  {
    hide Greatest, Advance, NoSave, InflatesStep, Dethrones, CloudCarries;
    GreatestIsReadable(s, k, r);
    if xs != [] {
      var t := Advance(s, xs[0]);
      GreatestStays(s, xs[0], k, r);
      CloudKeepsTheCopyIff(s, xs[0], k, r);
      if CloudCarries(t, k, r) { CloudStaysIff(t, xs[1..], k, r); }
    }
  }

  lemma {:induction false} CarriesAtTheEnd(s: System, xs: seq<Step>, k: Key, r: Record)
    requires r.blob.Readable? && CarriesThroughout(s, xs, k, r)
    ensures CloudCarries(RunAll(s, xs), k, r)
    decreases |xs|
  {
    hide Advance, CloudCarries;
    if xs != [] { CarriesAtTheEnd(Advance(s, xs[0]), xs[1..], k, r); }
  }

  /** Once every device has settled, all of them hold the cloud's copy. */
  lemma AllDevicesAgree(s: System, xs: seq<Step>, k: Key, r: Record)
    requires Greatest(s, k, r) && QuietRun(s, xs, k, r) && CloudCarries(s, k, r) && NeverDethroned(s, xs, k)
    requires forall i :: 0 <= i < |s.devices| ==> SettlesDuring(s, xs, i, k, r)
    ensures var e := RunAll(s, xs);
      && |e.devices| == |s.devices| && k in e.cloud && e.cloud[k].blob.Readable?
      && forall i :: 0 <= i < |e.devices| ==> Local(e.devices[i].files, k) == Some(CopyOf(e.cloud[k]))
  {
    hide Greatest, QuietRun, NeverDethroned, SettlesDuring, RunAll, CarriesThroughout;
    DevicesConverge(s, xs, k, r);
    GreatestIsReadable(s, k, r);
    CloudStaysIff(s, xs, k, r);
    CarriesAtTheEnd(s, xs, k, r);
  }

  // ---- Without stale records ----

  /** No pull holds another copy of `k` than `r`'s. */
  ghost predicate HoldsNothingStale(d: Device, k: Key, r: Record)
    requires r.blob.Readable?
  {
    forall t, c :: t in d.pulls && InHand(d.pulls[t], k, c) ==> c.blob.Readable? && CopyOf(c) == CopyOf(r)
  }

  ghost predicate NothingStale(s: System, k: Key, r: Record)
    requires r.blob.Readable?
  {
    CloudCarries(s, k, r) && forall i :: 0 <= i < |s.devices| ==> HoldsNothingStale(s.devices[i], k, r)
  }

  lemma DeviceHoldsNothingStale(d: Device, e: Event, k: Key, r: Record)
    requires r.blob.Readable? && FreshIds(d) && HoldsNothingStale(d, k, r)
    requires e.PullRecords? && e.results.Some? && e.t in d.pulls && d.pulls[e.t] == AwaitingRecords(k.sha) ==>
      forall c :: k.slot in e.results.value && e.results.value[k.slot] == Found(c) ==>
        c.blob.Readable? && CopyOf(c) == CopyOf(r)
    ensures HoldsNothingStale(Apply(d, e), k, r)
  {
    hide Apply, InHand, FreshIds;
    var g := Apply(d, e);
    forall t, c | t in g.pulls && InHand(g.pulls[t], k, c) ensures c.blob.Readable? && CopyOf(c) == CopyOf(r) {
      StillInHand(d, e, k, t, c);
    }
  }

  lemma NothingStaleStays(s: System, x: Step, k: Key, r: Record)
    requires Greatest(s, k, r) && NothingStale(s, k, r) && QuietStep(s, x, k, r) && !Dethrones(s, x, k)
    ensures |Advance(s, x).devices| == |s.devices| && NothingStale(Advance(s, x), k, r)
  {
    GreatestStays(s, x, k, r);
    CloudKeepsTheCopyIff(s, x, k, r);
    var g := Advance(s, x);
    forall i | 0 <= i < |s.devices| ensures HoldsNothingStale(g.devices[i], k, r) {
      assert FreshIds(s.devices[i]) && HoldsNothingStale(s.devices[i], k, r);
      hide Apply, Advance, Dethrones, HoldsNothingStale, FreshIds, Bounded;
      DeviceStep(s, x, i, k);
      if x.dev == i && EventOf(s, x).Some? {
        DeviceHoldsNothingStale(s.devices[i], EventOf(s, x).value, k, r);
      } else {
        SamePullsHoldNothingStale(s.devices[i], g.devices[i], k, r);
      }
    }
  }

  lemma SamePullsHoldNothingStale(d: Device, g: Device, k: Key, r: Record)
    requires r.blob.Readable? && HoldsNothingStale(d, k, r) && g.pulls == d.pulls
    ensures HoldsNothingStale(g, k, r)
  {
    hide InHand;
  }

  ghost predicate ReconcilesDuring(s: System, xs: seq<Step>, i: nat, k: Key, r: Record)
    decreases |xs|
  {
    xs != [] && i < |s.devices|
    && ((ReconcileStep(s, xs[0], i, k, r) && Undisturbed(Advance(s, xs[0]), xs[1..], i, k, r))
        || ReconcilesDuring(Advance(s, xs[0]), xs[1..], i, k, r))
  }

  /** From a state with no stale record in hand, and while the store keeps the greatest copy, every
      reconciliation settles its device. */
  lemma {:induction false} EveryReconciliationSettles(s: System, xs: seq<Step>, i: nat, k: Key, r: Record)
    requires Greatest(s, k, r) && QuietRun(s, xs, k, r) && NothingStale(s, k, r) && NeverDethroned(s, xs, k)
    requires i < |s.devices| && ReconcilesDuring(s, xs, i, k, r)
    ensures SettlesDuring(s, xs, i, k, r)
    decreases |xs|
  {
    hide Greatest, Advance, NoSave, InflatesStep, Dethrones, ReconcileStep;
    GreatestIsReadable(s, k, r);
    var t := Advance(s, xs[0]);
    GreatestStays(s, xs[0], k, r);
    NothingStaleStays(s, xs[0], k, r);
    if ReconcileStep(s, xs[0], i, k, r) && Undisturbed(t, xs[1..], i, k, r) {
      var d := t.devices[i];
      forall u | u in d.pulls ensures !StaleImport(d.pulls[u], k, r) {
        assert d.pulls[u].Importing? && Key(d.pulls[u].sha, d.pulls[u].slot) == k ==>
          InHand(d.pulls[u], k, d.pulls[u].record);
      }
    } else {
      EveryReconciliationSettles(t, xs[1..], i, k, r);
    }
  }

  // ---- Where convergence fails ----

  /** A stale import suspended before the winning record is reconciled undoes it afterwards: the
      device converges, and ends on the older copy. */
  lemma StaleImportUndoesConvergence(d: Device, t: nat, u: nat, now: int)
    requires t != u && t in d.pulls && u in d.pulls && d.pulls[t].Importing? && d.pulls[u].Applying?
    requires d.pulls[t].sha == d.pulls[u].sha && d.current == Some(d.pulls[u].sha)
    requires d.pulls[t].slot in d.pulls[u].todo && d.pulls[u].todo[d.pulls[t].slot].Found?
    requires var stale, r := d.pulls[t].record, d.pulls[u].todo[d.pulls[t].slot].record;
      stale.blob.Readable? && r.blob.Readable? && Stamp(stale) < Stamp(r)
      && NeedsPull(Local(d.files, Key(d.pulls[t].sha, d.pulls[t].slot)), r)
    ensures var slot, stale, ok := d.pulls[t].slot, d.pulls[t].record, ALL_WELL;
      var k, r := Key(d.pulls[t].sha, slot), d.pulls[u].todo[slot].record;
      var reconciled := Apply(Apply(Apply(d, PullNext(u, slot)), PullWrite(u, now, ok)), PullDone(u));
      && Converged(reconciled, k, r) && slot in reconciled.states && reconciled.states[slot] == Synced
      && Local(Apply(reconciled, PullWrite(t, now, ok)).files, k) == Some(CopyOf(stale))
  {
    var slot, ok := d.pulls[t].slot, ALL_WELL;
    var k := Key(d.pulls[t].sha, slot);
    SlotReconciledFacts(d, u, slot, now, ok);
    OtherPullStays(d, t, u, slot, now, ok);
    ReconciledInSteps(d, u, slot, now, ok);
    hide Local, SlotReconciled, Apply;
    WriteInstalls(SlotReconciled(d, u, slot, now, ok), PullWrite(t, now, ok), k);
  }

  /** Reconciling one result leaves the other pulls alone. */
  lemma OtherPullStays(d: Device, t: nat, u: nat, slot: int, now: int, io: Io)
    requires t != u && t in d.pulls
    ensures var g := SlotReconciled(d, u, slot, now, io); t in g.pulls && g.pulls[t] == d.pulls[t]
  {
    var e := NextResult(d, u, slot);
    NextEffects(d, u, slot);
    hide NextResult, ImportWritten, ImportDone, Stored, Local;
    WriteEffects(e, u, now, io);
    DoneEffects(ImportWritten(e, u, now, io), u);
  }

  /** With an import, the three steps of a result are its reconciliation. */
  lemma ReconciledInSteps(d: Device, u: nat, slot: int, now: int, io: Io)
    requires u in d.pulls && d.pulls[u].Applying? && d.current == Some(d.pulls[u].sha) && slot in d.pulls[u].todo
    requires Pulls(Local(d.files, Key(d.pulls[u].sha, slot)), d.pulls[u].todo[slot])
    ensures Apply(Apply(Apply(d, PullNext(u, slot)), PullWrite(u, now, io)), PullDone(u))
      == SlotReconciled(d, u, slot, now, io)
  {
    hide Local, ImportWritten, ImportDone, NeedsPull;
    NextFacts(d, u, slot);
  }

  lemma Reopened(d: Device, sha: string)
    requires d.enabled
    ensures var g := Opened(d, Some(sha));
      && g.files == d.files && g.current == Some(sha) && g.enabled && g.pulls == d.pulls[d.next := Queued(sha)]
  {
    hide SeededStates;
  }

  lemma Restarted(d: Device, u: nat)
    requires u in d.pulls && d.pulls[u].Queued? && d.enabled
    ensures Started(d, u) == d.(pulls := d.pulls[u := AwaitingAccount(d.pulls[u].sha)])
  {
  }

  lemma AccountFine(d: Device, u: nat)
    requires u in d.pulls && d.pulls[u].AwaitingAccount?
    ensures AccountForPull(d, u, true) == d.(account := true, pulls := d.pulls[u := AwaitingRecords(d.pulls[u].sha)])
  {
  }

  lemma RecordsApplied(d: Device, u: nat, results: map<int, Fetched>)
    requires u in d.pulls && d.pulls[u].AwaitingRecords?
    ensures RecordsArrived(d, u, Some(results)) == d.(pulls := d.pulls[u := Applying(d.pulls[u].sha, results)])
  {
  }

  /** Opening the game again while an import is suspended starts a second reconciliation beside it,
      which is how such a state comes about. */
  lemma ReopeningKeepsTheImport(d: Device, t: nat, results: map<int, Fetched>)
    requires FreshIds(d) && t in d.pulls && d.pulls[t].Importing? && d.enabled
    ensures var sha, u := d.pulls[t].sha, d.next;
      var g := Run(d, [Open(Some(sha)), PullStart(u), PullAccount(u, true), PullRecords(u, Some(results))]);
      && g.current == Some(sha) && g.files == d.files && t != u
      && t in g.pulls && g.pulls[t] == d.pulls[t] && u in g.pulls && g.pulls[u] == Applying(sha, results)
  {
    hide Local, Opened, Started, AccountForPull, RecordsArrived;
    var sha, u := d.pulls[t].sha, d.next;
    Reopened(d, sha);
    var d1 := Apply(d, Open(Some(sha)));
    var d2 := Apply(d1, PullStart(u));
    var d3 := Apply(d2, PullAccount(u, true));
    var d4 := Apply(d3, PullRecords(u, Some(results)));
    Restarted(d1, u);
    AccountFine(d2, u);
    RecordsApplied(d3, u, results);
    var es := [Open(Some(sha)), PullStart(u), PullAccount(u, true), PullRecords(u, Some(results))];
    assert es[1..][1..][1..][1..] == [];
    assert Run(d, es) == Run(d1, es[1..]) == Run(d2, es[1..][1..]) == Run(d3, es[1..][1..][1..]) == d4;
  }

  /** An upload that lands late takes the cloud back to an older copy. */
  lemma LateLandingLowersTheCloud(s: System, i: nat, t: nat, j: nat, u: nat)
    requires i < |s.devices| && t in s.devices[i].uploads && s.devices[i].uploads[t].Sending?
    requires j < |s.devices| && u in s.devices[j].uploads && s.devices[j].uploads[u].Sending?
    requires s.devices[i].uploads[t].key == s.devices[j].uploads[u].key
    requires Stamp(s.devices[i].uploads[t].record) < Stamp(s.devices[j].uploads[u].record)
    ensures var k := s.devices[i].uploads[t].key;
      var newest := Advance(s, UploadLands(j, u));
      var late := Advance(newest, UploadLands(i, t));
      && k in newest.cloud && newest.cloud[k] == s.devices[j].uploads[u].record
      && k in late.cloud && late.cloud[k] == s.devices[i].uploads[t].record
      && Stamp(late.cloud[k]) < Stamp(newest.cloud[k])
  {
  }
}
