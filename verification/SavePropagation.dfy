/** The way of one save from a device through the store to another device. */
module SavePropagation {
  import opened Common
  import opened SaveSlots
  import opened CloudSync
  import opened CloudConvergence

  /** A step of one device that is not a fetch moves that device alone. */
  lemma DeviceMoves(s: System, i: nat, e: Event)
    requires i < |s.devices| && !e.PullRecords?
    ensures Advance(s, OnDevice(i, e)) == s.(devices := s.devices[i := Apply(s.devices[i], e)])
  {
    hide Apply;
  }

  /** A fetch brings exactly what the store holds of the game's four slots. */
  lemma FetchBrings(s: System, i: nat, t: nat)
    requires i < |s.devices| && t in s.devices[i].pulls && s.devices[i].pulls[t].AwaitingRecords?
    ensures var d, g := s.devices[i], Advance(s, Fetch(i, t));
      && g.cloud == s.cloud && |g.devices| == |s.devices|
      && (forall j :: 0 <= j < |s.devices| && j != i ==> g.devices[j] == s.devices[j])
      && g.devices[i] == d.(pulls := g.devices[i].pulls)
      && t in g.devices[i].pulls && g.devices[i].pulls[t].Applying? && g.devices[i].pulls[t].sha == d.pulls[t].sha
      && var todo := g.devices[i].pulls[t].todo;
         && (forall slot :: slot in todo <==> 0 <= slot < 4)
         && (forall slot :: 0 <= slot < 4 ==>
               var k := Key(d.pulls[t].sha, slot);
               todo[slot] == if k in s.cloud then Found(s.cloud[k]) else NotFound)
  {
  }

  /** A landing puts exactly the sent record into the store, a delete takes its slot out. */
  lemma StoreMoves(s: System, i: nat, t: nat)
    requires i < |s.devices|
    ensures t in s.devices[i].uploads && s.devices[i].uploads[t].Sending? ==>
      var u := s.devices[i].uploads[t]; Advance(s, UploadLands(i, t)) == s.(cloud := s.cloud[u.key := u.record])
    ensures t in s.devices[i].deletes ==>
      Advance(s, DeleteLands(i, t)).cloud == s.cloud - {s.devices[i].deletes[t]}
  {
  }

  /** A save with sync on is on its way as soon as the account is there: with the saved blob and stamp. */
  lemma SaveIsSent(d: Device, sha: string, slot: int, data: Bytes, frame: nat, thumb: Option<Bytes>, now: int)
    requires d.current == Some(sha) && d.enabled
    ensures var k, u := Key(sha, slot), d.next;
      var g := Apply(Apply(d, Save(slot, data, frame, thumb, now, ALL_WELL)), UploadAccount(u, true));
      && Local(g.files, k) == Some(Copy(data, now)) && g.current == d.current
      && u in g.uploads && g.uploads[u] == Sending(k, Record(Some(now), frame, Readable(data), thumb), now)
  {
    var k := Key(sha, slot);
    StoredCopy(d.files, k, data, frame, now, thumb, now, ALL_WELL);
    SaveEffects(d, slot, data, frame, thumb, now, ALL_WELL);
    hide Local, SlotOf, Stored;
  }

  /** The store's answer shows the slot as synced. */
  lemma SentIsSynced(d: Device, u: nat, k: Key)
    requires u in d.uploads && d.uploads[u].Sending? && d.uploads[u].key == k && d.current == Some(k.sha)
    requires Local(d.files, k).Some? && Local(d.files, k).value.stamp == d.uploads[u].stamp
    ensures var g := Apply(d, UploadAnswer(u, true)); k.slot in g.states && g.states[k.slot] == Synced
  {
    hide Local;
  }

  /** A device that opens the game reaches the fetch. */
  lemma OpeningReachesTheFetch(d: Device, sha: string)
    requires d.enabled
    ensures var t := d.next;
      var g := Apply(Apply(Apply(d, Open(Some(sha))), PullStart(t)), PullAccount(t, true));
      && g.files == d.files && g.current == Some(sha) && t in g.pulls && g.pulls[t] == AwaitingRecords(sha)
  {
    hide Opened, Started, AccountForPull;
    Reopened(d, sha);
    var d1 := Apply(d, Open(Some(sha)));
    Restarted(d1, d.next);
    AccountFine(Apply(d1, PullStart(d.next)), d.next);
  }

  /** The fetched record of a slot that needs it is imported and shown as synced. */
  lemma RecordIsImported(d: Device, t: nat, slot: int, r: Record, now: int)
    requires t in d.pulls && d.pulls[t].Applying? && d.current == Some(d.pulls[t].sha)
    requires slot in d.pulls[t].todo && d.pulls[t].todo[slot] == Found(r) && r.blob.Readable?
    requires NeedsPull(Local(d.files, Key(d.pulls[t].sha, slot)), r)
    ensures var k := Key(d.pulls[t].sha, slot);
      var g := Apply(Apply(Apply(d, PullNext(t, slot)), PullWrite(t, now, ALL_WELL)), PullDone(t));
      && Local(g.files, k) == Some(Copy(r.blob.data, Stamp(r)))
      && slot in g.states && g.states[slot] == Synced
  {
    hide Local, NextResult;
    NextFacts(d, t, slot);
    ImportEnds(Apply(d, PullNext(t, slot)), t, now);
  }

  // ---- The whole way ----

  /** The saving device saves, is let in, and its upload lands and is accepted. */
  function SendingSteps(i: nat, u: nat, slot: int, data: Bytes, frame: nat, thumb: Option<Bytes>, now: int): seq<Step> {
    [OnDevice(i, Save(slot, data, frame, thumb, now, ALL_WELL)), OnDevice(i, UploadAccount(u, true)), UploadLands(i, u),
     OnDevice(i, UploadAnswer(u, true))]
  }

  /** The other device opens the game, is let in, fetches, and imports. */
  function ReceivingSteps(j: nat, t: nat, sha: string, slot: int, later: int): seq<Step> {
    [OnDevice(j, Open(Some(sha))), OnDevice(j, PullStart(t)), OnDevice(j, PullAccount(t, true)), Fetch(j, t),
     OnDevice(j, PullNext(t, slot)), OnDevice(j, PullWrite(t, later, ALL_WELL)), OnDevice(j, PullDone(t))]
  }

  lemma RunCons(s: System, x: Step, xs: seq<Step>)
    ensures RunAll(s, [x] + xs) == RunAll(Advance(s, x), xs)
  {
    hide Advance;
    assert ([x] + xs)[0] == x && ([x] + xs)[1..] == xs;
  }

  lemma {:induction false} RunConcat(s: System, xs: seq<Step>, ys: seq<Step>)
    ensures RunAll(s, xs + ys) == RunAll(RunAll(s, xs), ys)
    decreases |xs|
  {
    hide Advance;
    if xs == [] {
      assert xs + ys == ys;
    } else {
      assert xs + ys == [xs[0]] + (xs[1..] + ys);
      RunCons(s, xs[0], xs[1..] + ys);
      RunConcat(Advance(s, xs[0]), xs[1..], ys);
    }
  }

  /** Device `i` steps through `es` while the store and the other devices stand still. */
  ghost function Stepped(i: nat, es: seq<Event>): seq<Step> {
    seq(|es|, n requires 0 <= n < |es| => OnDevice(i, es[n]))
  }

  lemma {:induction false} DeviceRuns(s: System, i: nat, es: seq<Event>)
    requires i < |s.devices| && forall n :: 0 <= n < |es| ==> !es[n].PullRecords?
    ensures RunAll(s, Stepped(i, es)) == s.(devices := s.devices[i := Run(s.devices[i], es)])
    decreases |es|
  {
    hide Advance, Apply;
    if es == [] {
      assert Stepped(i, es) == [] && s.devices[i := s.devices[i]] == s.devices;
    } else {
      var x := OnDevice(i, es[0]);
      assert Stepped(i, es) == [x] + Stepped(i, es[1..]);
      RunCons(s, x, Stepped(i, es[1..]));
      DeviceMoves(s, i, es[0]);
      DeviceRuns(Advance(s, x), i, es[1..]);
    }
  }

  lemma RunTwo(d: Device, a: Event, b: Event)
    ensures Run(d, [a, b]) == Apply(Apply(d, a), b)
  {
    hide Apply;
    assert [a, b][1..] == [b] && [b][1..] == [];
    assert Run(Apply(d, a), [b]) == Run(Apply(Apply(d, a), b), []);
  }

  lemma RunThree(d: Device, a: Event, b: Event, c: Event)
    ensures Run(d, [a, b, c]) == Apply(Apply(Apply(d, a), b), c)
  {
    hide Apply;
    assert [a, b, c][1..] == [b, c];
    RunTwo(Apply(d, a), b, c);
  }

  lemma SaveLands(s: System, i: nat, sha: string, slot: int, data: Bytes, frame: nat, thumb: Option<Bytes>, now: int)
    requires i < |s.devices| && s.devices[i].current == Some(sha) && s.devices[i].enabled
    ensures var k, u := Key(sha, slot), s.devices[i].next;
      var e := RunAll(s, SendingSteps(i, u, slot, data, frame, thumb, now));
      && |e.devices| == |s.devices| && (forall j :: 0 <= j < |s.devices| && j != i ==> e.devices[j] == s.devices[j])
      && e.cloud == s.cloud[k := Record(Some(now), frame, Readable(data), thumb)]
      && Local(e.devices[i].files, k) == Some(Copy(data, now))
      && slot in e.devices[i].states && e.devices[i].states[slot] == Synced
  {
    hide Local, Apply, Advance;
    var k, u := Key(sha, slot), s.devices[i].next;
    var save := Save(slot, data, frame, thumb, now, ALL_WELL);
    var ask, answer := UploadAccount(u, true), UploadAnswer(u, true);
    SaveIsSent(s.devices[i], sha, slot, data, frame, thumb, now);
    RunTwo(s.devices[i], save, ask);
    DeviceRuns(s, i, [save, ask]);
    var s2 := RunAll(s, Stepped(i, [save, ask]));
    StoreMoves(s2, i, u);
    var s3 := Advance(s2, UploadLands(i, u));
    SentIsSynced(s3.devices[i], u, k);
    AnswerKeepsFiles(s3.devices[i], u);
    DeviceMoves(s3, i, answer);
    var s4 := Advance(s3, OnDevice(i, answer));
    assert SendingSteps(i, u, slot, data, frame, thumb, now)
      == Stepped(i, [save, ask]) + ([UploadLands(i, u)] + ([OnDevice(i, answer)] + []));
    RunConcat(s, Stepped(i, [save, ask]), [UploadLands(i, u)] + ([OnDevice(i, answer)] + []));
    RunCons(s2, UploadLands(i, u), [OnDevice(i, answer)] + []);
    RunCons(s3, OnDevice(i, answer), []);
  }

  lemma AnswerKeepsFiles(d: Device, u: nat)
    ensures Apply(d, UploadAnswer(u, true)).files == d.files
  {
  }

  lemma SaveArrives(s: System, j: nat, sha: string, slot: int, r: Record, later: int)
    requires j < |s.devices| && s.devices[j].enabled && 0 <= slot < 4 && r.blob.Readable?
    requires var k := Key(sha, slot); k in s.cloud && s.cloud[k] == r && NeedsPull(Local(s.devices[j].files, k), r)
    ensures var k := Key(sha, slot);
      var e := RunAll(s, ReceivingSteps(j, s.devices[j].next, sha, slot, later));
      && e.cloud == s.cloud && |e.devices| == |s.devices|
      && (forall i :: 0 <= i < |s.devices| && i != j ==> e.devices[i] == s.devices[i])
      && Local(e.devices[j].files, k) == Some(Copy(r.blob.data, Stamp(r)))
      && slot in e.devices[j].states && e.devices[j].states[slot] == Synced
  {
    hide Local, Apply, Advance, NeedsPull;
    var d, t := s.devices[j], s.devices[j].next;
    var a, b, c := Open(Some(sha)), PullStart(t), PullAccount(t, true);
    var x, y, z := PullNext(t, slot), PullWrite(t, later, ALL_WELL), PullDone(t);
    OpeningReachesTheFetch(d, sha);
    RunThree(d, a, b, c);
    DeviceRuns(s, j, [a, b, c]);
    var s3 := RunAll(s, Stepped(j, [a, b, c]));
    FetchBrings(s3, j, t);
    var s4 := Advance(s3, Fetch(j, t));
    RecordIsImported(s4.devices[j], t, slot, r, later);
    RunThree(s4.devices[j], x, y, z);
    DeviceRuns(s4, j, [x, y, z]);
    assert ReceivingSteps(j, t, sha, slot, later) == Stepped(j, [a, b, c]) + ([Fetch(j, t)] + Stepped(j, [x, y, z]));
    RunConcat(s, Stepped(j, [a, b, c]), [Fetch(j, t)] + Stepped(j, [x, y, z]));
    RunCons(s3, Fetch(j, t), Stepped(j, [x, y, z]));
  }

  /** A save reaches the other device: after these eleven steps the second device, if its own copy was
      older, holds the first one's blob with its stamp, both show the slot as synced, and the store has
      the save. */
  lemma SaveReachesTheOther(s: System, i: nat, j: nat, sha: string, slot: int, data: Bytes, frame: nat,
                            thumb: Option<Bytes>, now: int, later: int)
    requires i < |s.devices| && j < |s.devices| && i != j && 0 <= slot < 4
    requires s.devices[i].current == Some(sha) && s.devices[i].enabled && s.devices[j].enabled
    requires var mine := Local(s.devices[j].files, Key(sha, slot)); mine.Some? ==> mine.value.stamp < now
    ensures var k := Key(sha, slot);
      var e := RunAll(s, SendingSteps(i, s.devices[i].next, slot, data, frame, thumb, now)
                         + ReceivingSteps(j, s.devices[j].next, sha, slot, later));
      && |e.devices| == |s.devices| && k in e.cloud && e.cloud[k] == Record(Some(now), frame, Readable(data), thumb)
      && Local(e.devices[i].files, k) == Some(Copy(data, now)) && Local(e.devices[j].files, k) == Some(Copy(data, now))
      && slot in e.devices[i].states && e.devices[i].states[slot] == Synced
      && slot in e.devices[j].states && e.devices[j].states[slot] == Synced
  {
    hide Local, Apply, Advance, RunAll, SendingSteps, ReceivingSteps;
    var sending := SendingSteps(i, s.devices[i].next, slot, data, frame, thumb, now);
    SaveLands(s, i, sha, slot, data, frame, thumb, now);
    var h := RunAll(s, sending);
    SaveArrives(h, j, sha, slot, Record(Some(now), frame, Readable(data), thumb), later);
    RunConcat(s, sending, ReceivingSteps(j, s.devices[j].next, sha, slot, later));
  }
}
