/** What the save-state screen shows: the status of every slot after every step, and why a slot is ever
    shown as synced. */
module StatusLaws {
  import opened Common
  import opened SaveSlots
  import opened CloudSync

  function Shows(d: Device, slot: int): Option<Status> {
    if slot in d.states then Some(d.states[slot]) else None
  }

  predicate HasCopy(d: Device, sha: string, slot: int) {
    Local(d.files, Key(sha, slot)).Some?
  }

  function StampOf(d: Device, sha: string, slot: int): int
    requires HasCopy(d, sha, slot)
  {
    Local(d.files, Key(sha, slot)).value.stamp
  }

  /** The upload concerns `slot` of the game on screen. */
  predicate Concerns(d: Device, u: Upload, slot: int) {
    d.current == Some(u.key.sha) && u.key.slot == slot
  }

  /** The status a step leaves, slot by slot. Opening a game shows its saves as local only, a save as
      uploading, a clear nothing. An upload ends synced if it was accepted with the stamp the slot has,
      else local only, and shows nothing for an emptied slot. The opt-in shows what opening does, or
      nothing; a failed account check makes what is shown unavailable. A fetched record that is not newer
      than the copy shows synced, a missing one local only; an import ends synced or local only. */
  function Next(d: Device, e: Event, slot: int): Option<Status> {
    var was := Shows(d, slot);
    match e
    case Open(sha) =>
      if sha.Some? && d.enabled && 0 <= slot < 4 && HasCopy(d, sha.value, slot) then Some(LocalOnly) else None
    case Save(s, _, _, _, _, _) => if s == slot && d.enabled && d.current.Some? then Some(Uploading) else was
    case Clear(s, _) => if s == slot && d.current.Some? then None else was
    case UploadAccount(t, available) =>
      if t in d.uploads && d.uploads[t].Asking? && Concerns(d, d.uploads[t], slot)
      then if !HasCopy(d, d.uploads[t].key.sha, slot) then None else if !available then Some(LocalOnly) else was
      else was
    case UploadAnswer(t, ok) =>
      if t in d.uploads && d.uploads[t].Sending? && Concerns(d, d.uploads[t], slot)
      then
        if !HasCopy(d, d.uploads[t].key.sha, slot) then None
        else if ok && d.uploads[t].stamp == StampOf(d, d.uploads[t].key.sha, slot) then Some(Synced)
        else Some(LocalOnly)
      else was
    case PullAccount(t, available) =>
      if t in d.pulls && d.pulls[t].Toggled? then
        if !d.enabled then None
        else if d.current.Some? && 0 <= slot < 4
        then if HasCopy(d, d.current.value, slot) then Some(LocalOnly) else None
        else was
      else if t in d.pulls && d.pulls[t].AwaitingAccount? && !available && was.Some? then Some(Unavailable)
      else was
    case PullNext(t, s) =>
      if s == slot && t in d.pulls && d.pulls[t].Applying? && d.current == Some(d.pulls[t].sha)
         && slot in d.pulls[t].todo
      then
        var copy := HasCopy(d, d.pulls[t].sha, slot);
        match d.pulls[t].todo[slot]
        case NotFound => if copy then Some(LocalOnly) else None
        case Found(r) =>
          if copy && r.savedAt.GetOr(-62135769600) <= StampOf(d, d.pulls[t].sha, slot) then Some(Synced) else was
      else was
    case PullDone(t) =>
      if t in d.pulls && d.pulls[t].Imported? && d.current == Some(d.pulls[t].sha) && d.pulls[t].slot == slot
      then if d.pulls[t].ok then Some(Synced) else Some(LocalOnly)
      else was
    case _ => was
  }

  lemma StatusesFollow(d: Device, e: Event, slot: int)
    ensures Shows(Apply(d, e), slot) == Next(d, e, slot)
  {
    hide Apply, Next;
    match e
    case Open(sha) => OpenFollows(d, sha, slot);
    case UploadAccount(t, available) => AskFollows(d, t, available, slot);
    case UploadAnswer(t, ok) => AnswerFollows(d, t, ok, slot);
    case PullAccount(t, available) => AccountFollows(d, t, available, slot);
    case PullNext(t, s) => ResultFollows(d, t, s, slot);
    case _ => RestFollows(d, e, slot);
  }

  lemma OpenFollows(d: Device, sha: Option<string>, slot: int)
    ensures Shows(Apply(d, Open(sha)), slot) == Next(d, Open(sha), slot)
  {
    if sha.Some? { SeededFacts(map[], d.files, sha.value); }
    hide Local, SeededStates;
  }

  /** What the slot shows follows. */
  ghost predicate Follows(d: Device, e: Event, slot: int) {
    Shows(Apply(d, e), slot) == Next(d, e, slot)
  }

  lemma AskFollows(d: Device, t: nat, available: bool, slot: int)
    ensures Follows(d, UploadAccount(t, available), slot)
  {
    hide Local, UploadRecord;
  }

  lemma AnswerFollows(d: Device, t: nat, ok: bool, slot: int)
    ensures Follows(d, UploadAnswer(t, ok), slot)
  {
    hide Local, UploadRecord;
  }

  lemma AccountFollows(d: Device, t: nat, available: bool, slot: int)
    ensures Follows(d, PullAccount(t, available), slot)
  {
    if d.current.Some? { SeededFacts(d.states, d.files, d.current.value); }
    hide Local, SeededStates, Follows;
    if t in d.pulls && d.pulls[t].Toggled? {
      ToggleFollows(d, t, available, slot);
    } else {
      CheckFollows(d, t, available, slot);
    }
  }

  lemma ToggleFollows(d: Device, t: nat, available: bool, slot: int)
    requires t in d.pulls && d.pulls[t].Toggled?
    ensures Follows(d, PullAccount(t, available), slot)
  {
    if d.current.Some? { SeededFacts(d.states, d.files, d.current.value); }
    hide Local, SeededStates, AllUnavailable;
  }

  lemma CheckFollows(d: Device, t: nat, available: bool, slot: int)
    requires !(t in d.pulls && d.pulls[t].Toggled?)
    ensures Follows(d, PullAccount(t, available), slot)
  {
    hide Local, SeededStates;
  }

  lemma ResultFollows(d: Device, t: nat, s: int, slot: int)
    ensures Follows(d, PullNext(t, s), slot)
  {
    hide Local, NextPull, NextStates;
    if t in d.pulls && d.pulls[t].Applying? && s in d.pulls[t].todo {
      var local := Local(d.files, Key(d.pulls[t].sha, s));
      ResultStates(d.states, local, s, d.pulls[t].todo[s], slot);
    }
  }

  lemma ResultStates(states: map<int, Status>, local: Option<Copy>, s: int, f: Fetched, slot: int)
    ensures var g := NextStates(states, local, s, f);
      var was := if slot in states then Some(states[slot]) else None;
      (if slot in g then Some(g[slot]) else None) ==
        if s != slot then was
        else match f
          case NotFound => if local.Some? then Some(LocalOnly) else None
          case Found(r) =>
            if local.Some? && r.savedAt.GetOr(-62135769600) <= local.value.stamp then Some(Synced) else was
  {
  }

  lemma RestFollows(d: Device, e: Event, slot: int)
    requires !(e.Open? || e.UploadAccount? || e.UploadAnswer? || e.PullAccount? || e.PullNext?)
    ensures Shows(Apply(d, e), slot) == Next(d, e, slot)
  {
    hide Local, Stored, Cleared;
  }

  /** Right after opening a game with sync on, exactly the slots 0..3 with a copy show a status, and it
      is local only. */
  lemma OpeningShowsLocalOnly(d: Device, sha: string)
    requires d.enabled
    ensures var g := Apply(d, Open(Some(sha)));
      && (forall slot :: slot in g.states <==> 0 <= slot < 4 && HasCopy(d, sha, slot))
      && (forall slot :: slot in g.states ==> g.states[slot] == LocalOnly)
  {
    hide Local, Apply;
    var g := Apply(d, Open(Some(sha)));
    forall slot ensures Shows(g, slot) == if 0 <= slot < 4 && HasCopy(d, sha, slot) then Some(LocalOnly) else None {
      StatusesFollow(d, Open(Some(sha)), slot);
    }
    forall slot ensures slot in g.states <==> 0 <= slot < 4 && HasCopy(d, sha, slot) {
      assert Shows(g, slot).Some? <==> slot in g.states;
    }
    forall slot | slot in g.states ensures g.states[slot] == LocalOnly { assert Shows(g, slot).Some?; }
  }

  /** The store accepted an upload of the slot with the stamp the slot has, a fetched record of it was
      not newer than its copy, or an import into it ended well. */
  ghost predicate EarnsSync(d: Device, e: Event, slot: int) {
    d.current.Some?
    && var sha := d.current.value;
       match e
       case UploadAnswer(t, ok) =>
         && ok && t in d.uploads && d.uploads[t].Sending? && d.uploads[t].key == Key(sha, slot)
         && HasCopy(d, sha, slot) && d.uploads[t].stamp == StampOf(d, sha, slot)
       case PullNext(t, s) =>
         && s == slot && t in d.pulls && d.pulls[t].Applying? && d.pulls[t].sha == sha && slot in d.pulls[t].todo
         && d.pulls[t].todo[slot].Found? && HasCopy(d, sha, slot)
         && d.pulls[t].todo[slot].record.savedAt.GetOr(-62135769600) <= StampOf(d, sha, slot)
       case PullDone(t) =>
         t in d.pulls && d.pulls[t].Imported? && d.pulls[t].sha == sha && d.pulls[t].slot == slot && d.pulls[t].ok
       case _ => false
  }

  /** A slot shows synced after a step exactly if the step earns it that, or if it did before and the
      step changes nothing for it. */
  lemma SyncedIff(d: Device, e: Event, slot: int)
    ensures Shows(Apply(d, e), slot) == Some(Synced) <==>
      EarnsSync(d, e, slot) || (Shows(d, slot) == Some(Synced) && Next(d, e, slot) == Some(Synced) && !e.Open?)
  {
    StatusesFollow(d, e, slot);
    hide Local, Apply;
  }

  /** The slot has earned it during the run, after the last game was opened. */
  ghost predicate EarnedDuring(d: Device, es: seq<Event>, slot: int)
    decreases |es|
  {
    es != []
    && ((EarnsSync(d, es[0], slot) && forall i :: 0 < i < |es| ==> !es[i].Open?)
        || EarnedDuring(Apply(d, es[0]), es[1..], slot))
  }

  /** On every run, a slot that shows synced has earned it since its game was opened, or showed it from
      the start with no game opened since. */
  lemma {:induction false} SyncedIsEarned(d: Device, es: seq<Event>, slot: int)
    requires Shows(Run(d, es), slot) == Some(Synced)
    ensures EarnedDuring(d, es, slot)
      || (Shows(d, slot) == Some(Synced) && forall i :: 0 <= i < |es| ==> !es[i].Open?)
    decreases |es|
  {
    hide Apply, EarnsSync, Next;
    if es != [] {
      SyncedIsEarned(Apply(d, es[0]), es[1..], slot);
      SyncedIff(d, es[0], slot);
      assert forall i :: 0 < i < |es| ==> es[i] == es[1..][i - 1];
    }
  }
}
