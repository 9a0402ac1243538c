/**
  The optimistic profile store of agens-cli: write a temporary file, read the
  target again, rename over it.

  Savers run in any number of processes, every file-system call may fail, and a
  process may crash between any two of them. A schedule is any sequence of such
  steps and of edits by other programs; renaming is one atomic step. An action
  that is not enabled changes nothing.
*/
module ProfileStore {
  import opened Wrappers

  type Bytes = string
  type Process = nat
  type SaverId = nat

  datatype Path = Target | Temporary(process: Process, sequence: nat)

  datatype Error = ConcurrentModification | EditRefused | IoFailed

  datatype Location =
    | Editing
    | Creating(tries: nat)
    | Protecting(temporary: Path)
    | Writing(temporary: Path, written: nat)
    | Syncing(temporary: Path)
    | Rereading(temporary: Path)
    | Renaming(temporary: Path, seen: nat)
    | Removing(temporary: Path, error: Error)
    | Saved(index: nat, seen: nat)
    | Failed(error: Error)
    | Crashed

  /** One call of `save`: the snapshot it was given, and what the edit makes of
      it, if the edit is accepted. */
  datatype Saver = Saver(process: Process, snapshot: Option<Bytes>, replacement: Option<Bytes>, at: Location)

  /** One change of the target, by a saver or by another program. */
  datatype Change = Change(author: Option<SaverId>, content: Option<Bytes>)

  /** `initial`, `changes` and `leftBehind` record the history of a run; a saver
      at Renaming or Saved remembers how many changes its re-read had seen. */
  datatype Disk = Disk(
    files: map<Path, Bytes>,
    counters: map<Process, nat>,
    savers: map<SaverId, Saver>,
    initial: Option<Bytes>,
    changes: seq<Change>,
    leftBehind: set<Path>)

  datatype Action =
    | Save(saver: SaverId, process: Process, snapshot: Option<Bytes>, replacement: Option<Bytes>)
    | Advance(saver: SaverId, succeeds: bool, amount: nat)
    | Crash(process: Process)
    | Restart(process: Process)
    | OtherProgram(content: Option<Bytes>)

  const TRIES: nat := 128

  /** `read_optional`. */
  function Read(files: map<Path, Bytes>, path: Path): Option<Bytes> {
    if path in files then Some(files[path]) else None
  }

  function Counter(d: Disk, process: Process): nat {
    if process in d.counters then d.counters[process] else 0
  }

  /** The temporary file a saver owns at a location. */
  function Owned(at: Location): Option<Path> {
    match at
    case Protecting(t) => Some(t)
    case Writing(t, _) => Some(t)
    case Syncing(t) => Some(t)
    case Rereading(t) => Some(t)
    case Renaming(t, _) => Some(t)
    case Removing(t, _) => Some(t)
    case _ => None
  }

  /** How much of the text is on disk after one more write. */
  function Grown(text: Bytes, written: nat, amount: nat): nat {
    if written + amount < |text| then written + amount else |text|
  }

  /** What one call does to the disk. */
  datatype Effect =
    | Look
    | Count
    | Create(temporary: Path)
    | Write(temporary: Path, text: Bytes)
    | Rename(temporary: Path)
    | Remove(temporary: Path)
    | Leave(temporary: Path)

  function Text(v: Saver): Bytes {
    if v.replacement.Some? then v.replacement.value else ""
  }

  /** One file-system call of `save`: its effect, and where it leads. */
  function Access(d: Disk, v: Saver, succeeds: bool, amount: nat): (Effect, Location) {
    match v.at
    case Editing => (Look, if v.replacement.Some? && succeeds then Creating(0) else Failed(EditRefused))
    case Creating(tries) =>
      if tries >= TRIES then (Look, Failed(IoFailed))
      else
        var temporary := Temporary(v.process, Counter(d, v.process));
        if temporary in d.files then (Count, Creating(tries + 1))
        else if !succeeds then (Count, Failed(IoFailed))
        else (Create(temporary), Protecting(temporary))
    case Protecting(t) =>
      if v.snapshot.Some? && !succeeds then (Leave(t), Failed(IoFailed)) else (Look, Writing(t, 0))
    case Writing(t, written) =>
      var next := Grown(Text(v), written, amount);
      (Write(t, Text(v)[..next]),
       if !succeeds then Removing(t, IoFailed) else if next == |Text(v)| then Syncing(t) else Writing(t, next))
    case Syncing(t) => (Look, if succeeds then Rereading(t) else Removing(t, IoFailed))
    case Rereading(t) =>
      (Look,
       if !succeeds then Removing(t, IoFailed)
       else if Read(d.files, Target) != v.snapshot then Removing(t, ConcurrentModification)
       else Renaming(t, |d.changes|))
    case Renaming(t, seen) =>
      if succeeds && t in d.files then (Rename(t), Saved(|d.changes|, seen)) else (Look, Removing(t, IoFailed))
    case Removing(t, error) => (if succeeds then Remove(t) else Leave(t), Failed(error))
    case other => (Look, other)
  }

  function Perform(d: Disk, id: SaverId, process: Process, effect: Effect): Disk
    requires effect.Rename? ==> effect.temporary in d.files
  {
    match effect
    case Look => d
    case Count => d.(counters := d.counters[process := Counter(d, process) + 1])
    case Create(t) =>
      d.(counters := d.counters[process := Counter(d, process) + 1], files := d.files[t := ""])
    case Write(t, text) => d.(files := d.files[t := text])
    case Rename(t) =>
      d.(files := d.files[Target := d.files[t]] - {t},
         changes := d.changes + [Change(Some(id), Some(d.files[t]))])
    case Remove(t) => d.(files := d.files - {t})
    case Leave(t) => d.(leftBehind := d.leftBehind + {t})
  }

  function Proceed(d: Disk, id: SaverId, succeeds: bool, amount: nat): Disk
    requires id in d.savers
  {
    var v := d.savers[id];
    var (effect, next) := Access(d, v, succeeds, amount);
    Perform(d, id, v.process, effect).(savers := d.savers[id := v.(at := next)])
  }

  predicate Finished(at: Location) {
    at.Saved? || at.Failed? || at.Crashed?
  }

  /** Every unfinished saver of the process stops where it is. */
  function Crashing(d: Disk, process: Process): Disk {
    d.(savers := map id | id in d.savers ::
         if d.savers[id].process == process && !Finished(d.savers[id].at) then d.savers[id].(at := Crashed)
         else d.savers[id],
       leftBehind := d.leftBehind + set id |
         id in d.savers && d.savers[id].process == process && Owned(d.savers[id].at).Some? ::
         Owned(d.savers[id].at).value)
  }

  function Step(d: Disk, action: Action): Disk {
    match action
    case Save(id, process, snapshot, replacement) =>
      if id in d.savers then d else d.(savers := d.savers[id := Saver(process, snapshot, replacement, Editing)])
    case Advance(id, succeeds, amount) => if id in d.savers then Proceed(d, id, succeeds, amount) else d
    case Crash(process) => Crashing(d, process)
    case Restart(process) => d.(counters := d.counters[process := 0])
    case OtherProgram(content) =>
      d.(files := if content.Some? then d.files[Target := content.value] else d.files - {Target},
         changes := d.changes + [Change(None, content)])
  }

  function Run(d: Disk, schedule: seq<Action>): Disk
    decreases |schedule|
  {
    if schedule == [] then d else Run(Step(d, schedule[0]), schedule[1..])
  }

  /** A disk nobody is saving to yet, with whatever lies on it. */
  function Opened(files: map<Path, Bytes>): Disk {
    Disk(files, map[], map[], Read(files, Target), [], files.Keys - {Target})
  }

  // -------------------------------------------------------------- invariants

  /** What the target held after the first `n` changes. */
  function ContentAfter(d: Disk, n: nat): Option<Bytes>
    requires n <= |d.changes|
  {
    if n == 0 then d.initial else d.changes[n - 1].content
  }

  /** What a saver's own temporary file holds, and what it has done so far. */
  ghost predicate Progress(d: Disk, id: SaverId, v: Saver) {
    && (Owned(v.at).Some? ==> v.replacement.Some? && Owned(v.at).value.Temporary? && Owned(v.at).value in d.files)
    && (match v.at
        case Creating(tries) => tries <= TRIES && v.replacement.Some?
        case Protecting(t) => d.files[t] == ""
        case Writing(t, written) => written <= |v.replacement.value| && d.files[t] == v.replacement.value[..written]
        case Syncing(t) => d.files[t] == v.replacement.value
        case Rereading(t) => d.files[t] == v.replacement.value
        case Renaming(t, seen) =>
          && d.files[t] == v.replacement.value
          && seen <= |d.changes| && ContentAfter(d, seen) == v.snapshot
        case Saved(index, seen) =>
          && v.replacement.Some?
          && seen <= index < |d.changes|
          && d.changes[index] == Change(Some(id), v.replacement)
          && ContentAfter(d, seen) == v.snapshot
        case _ => true)
    && forall k :: 0 <= k < |d.changes| && d.changes[k].author == Some(id) ==> v.at.Saved? && v.at.index == k
  }

  ghost predicate Inv(d: Disk) {
    && (forall id :: id in d.savers ==> Progress(d, id, d.savers[id]))
    && (forall i, j :: i in d.savers && j in d.savers && i != j && Owned(d.savers[i].at).Some? ==>
          Owned(d.savers[i].at) != Owned(d.savers[j].at))
    && Read(d.files, Target) == ContentAfter(d, |d.changes|)
    && (forall k :: 0 <= k < |d.changes| && d.changes[k].author.Some? ==> d.changes[k].author.value in d.savers)
  }

  /** Every temporary file on disk is somebody's, or was left behind. */
  ghost predicate Accounted(d: Disk) {
    forall path :: path in d.files && path.Temporary? ==>
      path in d.leftBehind || exists id :: id in d.savers && Owned(d.savers[id].at) == Some(path)
  }

  /** Nothing a saver relies on is touched by a change that leaves its own
      temporary file alone and is not its own. */
  lemma ProgressFrame(d: Disk, d': Disk, id: SaverId, v: Saver)
    requires Progress(d, id, v)
    requires Owned(v.at).Some? ==>
               Owned(v.at).value in d'.files && d'.files[Owned(v.at).value] == d.files[Owned(v.at).value]
    requires d.changes <= d'.changes && d'.initial == d.initial
    requires forall k :: |d.changes| <= k < |d'.changes| ==> d'.changes[k].author != Some(id)
    ensures Progress(d', id, v)
  {
    assert forall k :: 0 <= k < |d.changes| ==> d'.changes[k] == d.changes[k];
  }

  /** The temporary file an effect concerns. */
  function Concerned(effect: Effect): Option<Path> {
    match effect
    case Look => None
    case Count => None
    case Create(t) => Some(t)
    case Write(t, _) => Some(t)
    case Rename(t) => Some(t)
    case Remove(t) => Some(t)
    case Leave(t) => Some(t)
  }

  lemma AccessConcerns(d: Disk, v: Saver, succeeds: bool, amount: nat)
    ensures var (effect, next) := Access(d, v, succeeds, amount);
      && (Concerned(effect).Some? && !effect.Create? ==> Concerned(effect) == Owned(v.at))
      && (effect.Create? ==> Concerned(effect).value.Temporary?)
      && (effect.Rename? ==> effect.temporary in d.files)
  {
  }

  lemma PerformTarget(d: Disk, id: SaverId, process: Process, effect: Effect)
    requires Concerned(effect).Some? ==> Concerned(effect).value.Temporary?
    requires effect.Rename? ==> effect.temporary in d.files
    requires Read(d.files, Target) == ContentAfter(d, |d.changes|)
    ensures var d' := Perform(d, id, process, effect);
      && Read(d'.files, Target) == ContentAfter(d', |d'.changes|)
      && d.changes <= d'.changes && d'.initial == d.initial
      && (forall k :: |d.changes| <= k < |d'.changes| ==> d'.changes[k].author == Some(id))
  {
  }

  /** Only a rename changes the target, and it is recorded. */
  lemma TargetAdvance(d: Disk, id: SaverId, succeeds: bool, amount: nat)
    requires id in d.savers && (Owned(d.savers[id].at).Some? ==> Owned(d.savers[id].at).value.Temporary?)
    requires Read(d.files, Target) == ContentAfter(d, |d.changes|)
    ensures var d' := Proceed(d, id, succeeds, amount);
      && Read(d'.files, Target) == ContentAfter(d', |d'.changes|)
      && d.changes <= d'.changes && d'.initial == d.initial
      && (forall k :: |d.changes| <= k < |d'.changes| ==> d'.changes[k].author == Some(id))
  {
    var v := d.savers[id];
    AccessConcerns(d, v, succeeds, amount);
    PerformTarget(d, id, v.process, Access(d, v, succeeds, amount).0);
  }

  /** A rename keeps the saver's account, and so does any other call. */
  lemma ProgressRename(d: Disk, id: SaverId, succeeds: bool, amount: nat)
    requires id in d.savers && Progress(d, id, d.savers[id]) && d.savers[id].at.Renaming?
    ensures Progress(Proceed(d, id, succeeds, amount), id, Proceed(d, id, succeeds, amount).savers[id])
  {
    var d' := Proceed(d, id, succeeds, amount);
    assert forall k :: 0 <= k < |d.changes| ==> d'.changes[k] == d.changes[k] && d.changes[k].author != Some(id);
  }

  lemma ProgressCall(d: Disk, id: SaverId, succeeds: bool, amount: nat)
    requires id in d.savers && Progress(d, id, d.savers[id]) && !d.savers[id].at.Renaming?
    requires Read(d.files, Target) == ContentAfter(d, |d.changes|)
    ensures Progress(Proceed(d, id, succeeds, amount), id, Proceed(d, id, succeeds, amount).savers[id])
  {
    assert Proceed(d, id, succeeds, amount).changes == d.changes;
  }

  lemma ProgressAdvance(d: Disk, id: SaverId, succeeds: bool, amount: nat)
    requires id in d.savers && Progress(d, id, d.savers[id])
    requires Read(d.files, Target) == ContentAfter(d, |d.changes|)
    ensures Progress(Proceed(d, id, succeeds, amount), id, Proceed(d, id, succeeds, amount).savers[id])
  {
    if d.savers[id].at.Renaming? {
      ProgressRename(d, id, succeeds, amount);
    } else {
      ProgressCall(d, id, succeeds, amount);
    }
  }

  /** A saver's step touches no temporary file but its own, and takes a new one
      only where there was none. */
  lemma AdvanceTouches(d: Disk, id: SaverId, succeeds: bool, amount: nat)
    requires id in d.savers && Progress(d, id, d.savers[id])
    ensures var d' := Proceed(d, id, succeeds, amount); var before := Owned(d.savers[id].at);
      var after := Owned(d'.savers[id].at);
      && d'.savers.Keys == d.savers.Keys
      && (forall other :: other in d.savers && other != id ==> d'.savers[other] == d.savers[other])
      && (after.Some? ==> after == before || after.value !in d.files)
      && (forall path: Path :: path.Temporary? && Some(path) != before && Some(path) != after ==>
            Read(d'.files, path) == Read(d.files, path))
      && (before.Some? && after != before ==> before.value !in d'.files || before.value in d'.leftBehind)
      && (after.Some? && after != before ==> before.None?)
      && d.leftBehind <= d'.leftBehind
  {
  }

  /** The savers that do not move keep what they rely on. */
  lemma OthersKeep(d: Disk, id: SaverId, succeeds: bool, amount: nat, other: SaverId)
    requires Inv(d) && id in d.savers && other in d.savers && other != id
    ensures Progress(Proceed(d, id, succeeds, amount), other, d.savers[other])
  {
    var d' := Proceed(d, id, succeeds, amount);
    var v := d.savers[other];
    assert Progress(d, id, d.savers[id]) && Progress(d, other, v);
    AdvanceTouches(d, id, succeeds, amount);
    TargetAdvance(d, id, succeeds, amount);
    if Owned(v.at).Some? {
      assert Read(d'.files, Owned(v.at).value) == Read(d.files, Owned(v.at).value);
    }
    ProgressFrame(d, d', other, v);
  }

  lemma OwnersStayApart(d: Disk, id: SaverId, succeeds: bool, amount: nat)
    requires Inv(d) && id in d.savers
    ensures var d' := Proceed(d, id, succeeds, amount);
      forall i, j :: i in d'.savers && j in d'.savers && i != j && Owned(d'.savers[i].at).Some? ==>
        Owned(d'.savers[i].at) != Owned(d'.savers[j].at)
  {
    var d' := Proceed(d, id, succeeds, amount);
    assert Progress(d, id, d.savers[id]);
    AdvanceTouches(d, id, succeeds, amount);
    forall i, j | i in d'.savers && j in d'.savers && i != j && Owned(d'.savers[i].at).Some?
      ensures Owned(d'.savers[i].at) != Owned(d'.savers[j].at)
    {
      assert Progress(d, i, d.savers[i]) && Progress(d, j, d.savers[j]);
    }
  }

  lemma InvAdvance(d: Disk, id: SaverId, succeeds: bool, amount: nat)
    requires Inv(d) && id in d.savers
    ensures Inv(Proceed(d, id, succeeds, amount)) && Proceed(d, id, succeeds, amount).initial == d.initial
  {
    var d' := Proceed(d, id, succeeds, amount);
    assert Progress(d, id, d.savers[id]);
    ProgressAdvance(d, id, succeeds, amount);
    TargetAdvance(d, id, succeeds, amount);
    OwnersStayApart(d, id, succeeds, amount);
    forall other | other in d'.savers
      ensures Progress(d', other, d'.savers[other])
    {
      if other != id {
        OthersKeep(d, id, succeeds, amount, other);
      }
    }
  }

  lemma AccountedAdvance(d: Disk, id: SaverId, succeeds: bool, amount: nat)
    requires Inv(d) && Accounted(d) && id in d.savers
    ensures Accounted(Proceed(d, id, succeeds, amount))
  {
    var d' := Proceed(d, id, succeeds, amount);
    assert Progress(d, id, d.savers[id]);
    AdvanceTouches(d, id, succeeds, amount);
    forall path | path in d'.files && path.Temporary? && path !in d'.leftBehind
      ensures exists owner :: owner in d'.savers && Owned(d'.savers[owner].at) == Some(path)
    {
      if Some(path) == Owned(d'.savers[id].at) {
      } else if Some(path) != Owned(d.savers[id].at) {
        assert path in d.files;
        var owner :| owner in d.savers && Owned(d.savers[owner].at) == Some(path);
        assert owner in d'.savers && Owned(d'.savers[owner].at) == Some(path);
      }
    }
  }

  /** A step by no saver changes no saver's own file, and moves it at most to its
      crash. */
  lemma ProgressOther(d: Disk, action: Action, id: SaverId)
    requires !action.Advance? && id in d.savers && Progress(d, id, d.savers[id])
    ensures Progress(Step(d, action), id, Step(d, action).savers[id])
  {
    ProgressFrame(d, Step(d, action), id, d.savers[id]);
  }

  /** Nor does it give a saver a file, or touch the target unrecorded. */
  lemma OtherTouches(d: Disk, action: Action)
    requires !action.Advance? && Read(d.files, Target) == ContentAfter(d, |d.changes|)
    ensures var d' := Step(d, action);
      && (forall id :: id in d'.savers && Owned(d'.savers[id].at).Some? ==>
            id in d.savers && Owned(d'.savers[id].at) == Owned(d.savers[id].at))
      && (forall id :: id in d.savers ==> id in d'.savers)
      && Read(d'.files, Target) == ContentAfter(d', |d'.changes|)
      && d'.initial == d.initial && d.changes <= d'.changes
      && (forall k :: |d.changes| <= k < |d'.changes| ==> d'.changes[k].author.None?)
  {
  }

  lemma InvOther(d: Disk, action: Action)
    requires Inv(d) && !action.Advance?
    ensures Inv(Step(d, action)) && Step(d, action).initial == d.initial
  {
    var d' := Step(d, action);
    OtherTouches(d, action);
    forall id | id in d'.savers
      ensures Progress(d', id, d'.savers[id])
    {
      if id in d.savers {
        ProgressOther(d, action, id);
      } else {
        BeginsClean(d, action, id);
      }
    }
  }

  /** A saver that has just been called has changed nothing. */
  lemma BeginsClean(d: Disk, action: Action, id: SaverId)
    requires Inv(d) && !action.Advance? && id !in d.savers && id in Step(d, action).savers
    ensures Progress(Step(d, action), id, Step(d, action).savers[id])
  {
  }

  lemma AccountedOther(d: Disk, action: Action)
    requires Accounted(d) && !action.Advance?
    ensures Accounted(Step(d, action))
  {
    var d' := Step(d, action);
    forall path | path in d'.files && path.Temporary? && path !in d'.leftBehind
      ensures exists owner :: owner in d'.savers && Owned(d'.savers[owner].at) == Some(path)
    {
      assert path in d.files;
      var owner :| owner in d.savers && Owned(d.savers[owner].at) == Some(path);
      assert owner in d'.savers && Owned(d'.savers[owner].at) == Some(path);
    }
  }

  lemma InvAnyStep(d: Disk, action: Action)
    requires Inv(d)
    ensures Inv(Step(d, action)) && Step(d, action).initial == d.initial
  {
    if !action.Advance? {
      InvOther(d, action);
    } else if action.saver in d.savers {
      InvAdvance(d, action.saver, action.succeeds, action.amount);
      assert Step(d, action) == Proceed(d, action.saver, action.succeeds, action.amount);
    }
  }

  lemma InvStep(d: Disk, action: Action)
    requires Inv(d) && Accounted(d)
    ensures Inv(Step(d, action)) && Accounted(Step(d, action)) && Step(d, action).initial == d.initial
  {
    InvAnyStep(d, action);
    if !action.Advance? {
      AccountedOther(d, action);
    } else if action.saver in d.savers {
      AccountedAdvance(d, action.saver, action.succeeds, action.amount);
    }
  }

  lemma {:induction false} InvRun(d: Disk, schedule: seq<Action>)
    requires Inv(d) && Accounted(d)
    ensures Inv(Run(d, schedule)) && Accounted(Run(d, schedule))
    ensures Run(d, schedule).initial == d.initial
    decreases |schedule|
  {
    if schedule != [] {
      InvStep(d, schedule[0]);
      InvRun(Step(d, schedule[0]), schedule[1..]);
    }
  }

  // ------------------------------------------------------------- whole runs

  /** Over any interleaving of saves, crashes and edits by other programs, the
      target holds its initial content, another program's edit, or the complete
      replacement of a save that succeeded. */
  lemma TargetIsWhole(files: map<Path, Bytes>, schedule: seq<Action>)
    ensures var d := Run(Opened(files), schedule); var content := Read(d.files, Target);
      if d.changes == [] then content == Read(files, Target)
      else
        var last := d.changes[|d.changes| - 1];
        && content == last.content
        && (last.author.Some? ==>
              && last.author.value in d.savers
              && d.savers[last.author.value].at.Saved?
              && last.content == d.savers[last.author.value].replacement)
  {
    InvRun(Opened(files), schedule);
    var d := Run(Opened(files), schedule);
    if d.changes != [] && d.changes[|d.changes| - 1].author.Some? {
      var id := d.changes[|d.changes| - 1].author.value;
      assert Progress(d, id, d.savers[id]);
    }
  }

  // ------------------------------------------------------ other programs and crashes

  /** What the edits of a schedule by other programs leave of the target. */
  function EditsIn(schedule: seq<Action>): seq<Option<Bytes>> {
    if schedule == [] then []
    else (if schedule[0].OtherProgram? then [schedule[0].content] else []) + EditsIn(schedule[1..])
  }

  /** What the changes nobody's save made put there. */
  function ForeignIn(changes: seq<Change>): seq<Option<Bytes>> {
    if changes == [] then []
    else
      var last := changes[|changes| - 1];
      ForeignIn(changes[..|changes| - 1]) + if last.author.None? then [last.content] else []
  }

  lemma ForeignStep(d: Disk, action: Action)
    ensures ForeignIn(Step(d, action).changes)
            == ForeignIn(d.changes) + if action.OtherProgram? then [action.content] else []
  {
    var changes := Step(d, action).changes;
    if changes != d.changes {
      assert changes[..|changes| - 1] == d.changes;
    }
  }

  /** Every edit by another program changes the target, in order, and nothing else
      but saves does: with TargetIsWhole, an edit stands until the next change. */
  lemma {:induction false} ForeignChangesAreHistory(d: Disk, schedule: seq<Action>)
    ensures ForeignIn(Run(d, schedule).changes) == ForeignIn(d.changes) + EditsIn(schedule)
    decreases |schedule|
  {
    if schedule != [] {
      ForeignStep(d, schedule[0]);
      ForeignChangesAreHistory(Step(d, schedule[0]), schedule[1..]);
    }
  }

  lemma StopsForGood(d: Disk, action: Action, id: SaverId)
    requires id in d.savers && d.savers[id].at.Crashed?
    ensures var d' := Step(d, action); id in d'.savers && d'.savers[id] == d.savers[id]
  {
  }

  lemma {:induction false} CrashedStays(d: Disk, schedule: seq<Action>, id: SaverId)
    requires id in d.savers && d.savers[id].at.Crashed?
    ensures var d' := Run(d, schedule); id in d'.savers && d'.savers[id] == d.savers[id]
    decreases |schedule|
  {
    if schedule != [] {
      StopsForGood(d, schedule[0], id);
      CrashedStays(Step(d, schedule[0]), schedule[1..], id);
    }
  }

  /** A crash stops every save of its process that was not over, for good, and no
      other; it touches no file. */
  lemma CrashStopsItsProcess(d: Disk, process: Process, schedule: seq<Action>, id: SaverId)
    requires id in d.savers
    ensures var crashed := Step(d, Crash(process));
      && crashed.files == d.files && crashed.changes == d.changes
      && (if d.savers[id].process == process && !d.savers[id].at.Saved? && !d.savers[id].at.Failed? then
            var last := Run(crashed, schedule);
            id in last.savers && last.savers[id].at.Crashed?
          else id in crashed.savers && crashed.savers[id] == d.savers[id])
  {
    var crashed := Step(d, Crash(process));
    if d.savers[id].process == process && !d.savers[id].at.Saved? && !d.savers[id].at.Failed? {
      CrashedStays(crashed, schedule, id);
    }
  }

  /** A process that has started anew tries the first name again. */
  lemma RestartTriesTheFirstName(d: Disk, process: Process, id: SaverId, tries: nat)
    requires id in d.savers && d.savers[id].process == process && d.savers[id].at == Creating(tries) && tries < 128
    ensures var first := Temporary(process, 0); var next := Step(Step(d, Restart(process)), Advance(id, true, 0));
      id in next.savers
      && (if first in d.files then next.files == d.files && next.savers[id].at == Creating(tries + 1)
          else next.files == d.files[first := ""] && next.savers[id].at == Protecting(first))
  {
  }

  // ------------------------------------------------------------------ raced renames

  /** Somebody else's change lands between the saver's re-read and its rename. */
  predicate Races(d: Disk, action: Action, id: SaverId) {
    && id in d.savers && d.savers[id].at.Renaming?
    && !(action.Advance? && action.saver == id)
    && |Step(d, action).changes| > |d.changes|
  }

  predicate Unraced(d: Disk, schedule: seq<Action>, id: SaverId)
    decreases |schedule|
  {
    schedule == [] || (!Races(d, schedule[0], id) && Unraced(Step(d, schedule[0]), schedule[1..], id))
  }

  /** Whatever the saver's re-read saw was, or still is, the last change. */
  predicate InStep(d: Disk, id: SaverId) {
    id in d.savers ==>
      match d.savers[id].at
      case Renaming(_, seen) => seen == |d.changes|
      case Saved(index, seen) => seen == index
      case _ => true
  }

  /** The saver has been overtaken, or has given up. */
  predicate Behind(d: Disk, id: SaverId) {
    && id in d.savers
    && match d.savers[id].at
       case Renaming(_, seen) => seen < |d.changes|
       case Saved(index, seen) => seen < index
       case Removing(_, _) => true
       case Failed(_) => true
       case Crashed => true
       case _ => false
  }

  lemma ChangesGrow(d: Disk, action: Action)
    ensures |d.changes| <= |Step(d, action).changes|
  {
  }

  lemma BehindStep(d: Disk, action: Action, id: SaverId)
    requires Behind(d, id)
    ensures Behind(Step(d, action), id)
  {
    ChangesGrow(d, action);
  }

  lemma InStepStep(d: Disk, action: Action, id: SaverId)
    requires InStep(d, id)
    ensures if Races(d, action, id) then Behind(Step(d, action), id) else InStep(Step(d, action), id)
  {
    ChangesGrow(d, action);
  }

  lemma {:induction false} BehindRun(d: Disk, schedule: seq<Action>, id: SaverId)
    requires Behind(d, id)
    ensures Behind(Run(d, schedule), id)
    decreases |schedule|
  {
    if schedule != [] {
      BehindStep(d, schedule[0], id);
      BehindRun(Step(d, schedule[0]), schedule[1..], id);
    }
  }

  lemma {:induction false} UnracedRun(d: Disk, schedule: seq<Action>, id: SaverId)
    requires InStep(d, id)
    ensures if Unraced(d, schedule, id) then InStep(Run(d, schedule), id) else Behind(Run(d, schedule), id)
    decreases |schedule|
  {
    if schedule != [] {
      InStepStep(d, schedule[0], id);
      if Races(d, schedule[0], id) {
        BehindRun(Step(d, schedule[0]), schedule[1..], id);
      } else {
        UnracedRun(Step(d, schedule[0]), schedule[1..], id);
      }
    }
  }

  /** A save that succeeded overwrote the very change its re-read had seen exactly
      in the runs in which nobody's change landed between the two. */
  lemma UnracedIff(files: map<Path, Bytes>, schedule: seq<Action>, id: SaverId)
    requires id in Run(Opened(files), schedule).savers && Run(Opened(files), schedule).savers[id].at.Saved?
    ensures var at := Run(Opened(files), schedule).savers[id].at;
      at.seen == at.index <==> Unraced(Opened(files), schedule, id)
  {
    UnracedRun(Opened(files), schedule, id);
  }

  /** A save changed the target exactly if it succeeded, and then once; one that
      returned an error, crashed, or is still running has not. Its re-read saw its
      snapshot; in an unraced run that is what it wrote over. (In a raced one it
      may be so too: the last change in between may have put the snapshot back.) */
  lemma SavesAreOptimistic(files: map<Path, Bytes>, schedule: seq<Action>, id: SaverId, k: nat)
    requires id in Run(Opened(files), schedule).savers && k < |Run(Opened(files), schedule).changes|
    ensures var d := Run(Opened(files), schedule); var v := d.savers[id];
      && (d.changes[k].author == Some(id) <==> v.at.Saved? && v.at.index == k)
      && (v.at.Saved? ==>
            && v.at.seen <= v.at.index < |d.changes|
            && d.changes[v.at.index].content == v.replacement
            && ContentAfter(d, v.at.seen) == v.snapshot
            && (v.at.seen == v.at.index <==> Unraced(Opened(files), schedule, id))
            && (Unraced(Opened(files), schedule, id) ==> ContentAfter(d, v.at.index) == v.snapshot))
  {
    InvRun(Opened(files), schedule);
    var d := Run(Opened(files), schedule);
    assert Progress(d, id, d.savers[id]);
    if d.savers[id].at.Saved? {
      UnracedIff(files, schedule, id);
    }
  }

  /** A step that leaves a temporary file behind: a crash of a process with a save
      that owns one, or a failed call whose clean-up is missing or itself fails. */
  predicate LeavesBehind(d: Disk, action: Action) {
    match action
    case Crash(process) =>
      exists id :: id in d.savers && d.savers[id].process == process && Owned(d.savers[id].at).Some?
    case Advance(id, succeeds, _) =>
      && !succeeds && id in d.savers
      && ((d.savers[id].at.Protecting? && d.savers[id].snapshot.Some?) || d.savers[id].at.Removing?)
    case _ => false
  }

  predicate CleanRun(d: Disk, schedule: seq<Action>)
    decreases |schedule|
  {
    schedule == [] || (!LeavesBehind(d, schedule[0]) && CleanRun(Step(d, schedule[0]), schedule[1..]))
  }

  /** What was left behind stays on the disk, and is nobody's. */
  ghost predicate Apart(d: Disk) {
    && (forall path :: path in d.leftBehind ==> path.Temporary? && path in d.files)
    && (forall id :: id in d.savers && Owned(d.savers[id].at).Some? ==> Owned(d.savers[id].at).value !in d.leftBehind)
  }

  lemma ApartAdvance(d: Disk, id: SaverId, succeeds: bool, amount: nat)
    requires Inv(d) && Apart(d) && id in d.savers
    ensures var d' := Proceed(d, id, succeeds, amount);
      && Apart(d') && d.leftBehind <= d'.leftBehind
      && (LeavesBehind(d, Advance(id, succeeds, amount)) <==> d'.leftBehind != d.leftBehind)
  {
    var d' := Proceed(d, id, succeeds, amount);
    assert Progress(d, id, d.savers[id]);
    AdvanceTouches(d, id, succeeds, amount);
    AdvanceLeaves(d, id, succeeds, amount);
    forall path | path in d.leftBehind
      ensures path in d'.files
    {
      assert Read(d'.files, path) == Read(d.files, path);
    }
  }

  /** What one step adds to what is left behind: its own file, or nothing. */
  lemma AdvanceLeaves(d: Disk, id: SaverId, succeeds: bool, amount: nat)
    requires id in d.savers && Progress(d, id, d.savers[id])
    ensures var d' := Proceed(d, id, succeeds, amount); var before := Owned(d.savers[id].at);
      if LeavesBehind(d, Advance(id, succeeds, amount)) then
        before.Some? && d'.leftBehind == d.leftBehind + {before.value} && d'.files == d.files
        && Owned(d'.savers[id].at).None?
      else d'.leftBehind == d.leftBehind
  {
  }

  lemma ApartCrash(d: Disk, process: Process)
    requires Inv(d) && Apart(d)
    ensures Apart(Crashing(d, process)) && d.leftBehind <= Crashing(d, process).leftBehind
  {
    forall id | id in d.savers && Owned(d.savers[id].at).Some?
      ensures Owned(d.savers[id].at).value.Temporary? && Owned(d.savers[id].at).value in d.files
    {
      assert Progress(d, id, d.savers[id]);
    }
  }

  lemma CrashLeaves(d: Disk, process: Process)
    requires Apart(d)
    ensures LeavesBehind(d, Crash(process)) <==> Crashing(d, process).leftBehind != d.leftBehind
  {
    if id :| id in d.savers && d.savers[id].process == process && Owned(d.savers[id].at).Some? {
      assert Owned(d.savers[id].at).value in Crashing(d, process).leftBehind;
    }
  }

  lemma ApartOther(d: Disk, action: Action)
    requires Inv(d) && Apart(d) && !action.Advance?
    ensures Apart(Step(d, action)) && d.leftBehind <= Step(d, action).leftBehind
    ensures LeavesBehind(d, action) <==> Step(d, action).leftBehind != d.leftBehind
  {
    if action.Crash? {
      ApartCrash(d, action.process);
      CrashLeaves(d, action.process);
    }
  }

  lemma ApartStep(d: Disk, action: Action)
    requires Inv(d) && Apart(d)
    ensures Apart(Step(d, action)) && d.leftBehind <= Step(d, action).leftBehind
    ensures LeavesBehind(d, action) <==> Step(d, action).leftBehind != d.leftBehind
  {
    if !action.Advance? {
      ApartOther(d, action);
    } else if action.saver in d.savers {
      ApartAdvance(d, action.saver, action.succeeds, action.amount);
    }
  }

  lemma {:induction false} CleanRunIff(d: Disk, schedule: seq<Action>)
    requires Inv(d) && Accounted(d) && Apart(d)
    ensures Apart(Run(d, schedule)) && d.leftBehind <= Run(d, schedule).leftBehind
    ensures CleanRun(d, schedule) <==> Run(d, schedule).leftBehind == d.leftBehind
    decreases |schedule|
  {
    if schedule != [] {
      ApartStep(d, schedule[0]);
      InvStep(d, schedule[0]);
      CleanRunIff(Step(d, schedule[0]), schedule[1..]);
    }
  }

  /** Once every save has returned or crashed, no temporary file is on the disk
      that was not there before exactly if no process crashed with one in hand, and
      no save failed past its clean-up or in it. */
  lemma NothingIsLeftBehind(files: map<Path, Bytes>, schedule: seq<Action>)
    requires forall id :: id in Run(Opened(files), schedule).savers ==>
               Finished(Run(Opened(files), schedule).savers[id].at)
    ensures (forall path :: path in Run(Opened(files), schedule).files && path.Temporary? ==> path in files)
            <==> CleanRun(Opened(files), schedule)
  {
    InvRun(Opened(files), schedule);
    CleanRunIff(Opened(files), schedule);
    var d := Run(Opened(files), schedule);
    if !CleanRun(Opened(files), schedule) {
      var path :| path in d.leftBehind && path !in Opened(files).leftBehind;
      assert path in d.files && path.Temporary?;
    }
  }

  // -------------------------------------------------------------- the one race

  /** `n` calls of one save in a row, all of which succeed. */
  function Repeated(id: SaverId, amount: nat, n: nat): seq<Action> {
    seq(n, _ => Advance(id, true, amount))
  }

  lemma RunFirst(d: Disk, action: Action, rest: seq<Action>)
    ensures Run(d, [action] + rest) == Run(Step(d, action), rest)
  {
    assert ([action] + rest)[1..] == rest;
  }

  lemma {:induction false} RunConcat(d: Disk, left: seq<Action>, right: seq<Action>)
    ensures Run(d, left + right) == Run(Run(d, left), right)
    decreases |left|
  {
    if left == [] {
      assert left + right == right;
    } else {
      RunConcat(Step(d, left[0]), left[1..], right);
      assert (left + right)[1..] == left[1..] + right;
    }
  }

  /** The same disk with the saver standing elsewhere. */
  function At(d: Disk, id: SaverId, at: Location): Disk
    requires id in d.savers
  {
    d.(savers := d.savers[id := d.savers[id].(at := at)])
  }

  lemma RunAdvance(d: Disk, id: SaverId, amount: nat, n: nat)
    requires id in d.savers && n > 0
    ensures Run(d, Repeated(id, amount, n)) == Run(Proceed(d, id, true, amount), Repeated(id, amount, n - 1))
  {
    assert Repeated(id, amount, n)[1..] == Repeated(id, amount, n - 1);
  }

  /** A call that only looks moves its own saver and nothing else. */
  lemma LooksOn(d: Disk, id: SaverId, at: Location, next: Location, amount: nat, n: nat)
    requires id in d.savers && n > 0 && Access(d, d.savers[id].(at := at), true, amount) == (Look, next)
    ensures Run(At(d, id, at), Repeated(id, amount, n)) == Run(At(d, id, next), Repeated(id, amount, n - 1))
  {
    var u := At(d, id, at);
    RunAdvance(u, id, amount, n);
    assert Access(u, u.savers[id], true, amount) == (Look, next);
    assert Proceed(u, id, true, amount).savers == At(d, id, next).savers;
  }

  /** The disk with the next temporary file of the process on it, and counted. */
  function Created(d: Disk, process: Process): Disk {
    d.(files := d.files[Temporary(process, Counter(d, process)) := ""],
       counters := d.counters[process := Counter(d, process) + 1])
  }

  lemma CreatesFile(d: Disk, id: SaverId, amount: nat)
    requires id in d.savers && d.savers[id].at == Creating(0)
    requires Temporary(d.savers[id].process, Counter(d, d.savers[id].process)) !in d.files
    ensures var process := d.savers[id].process;
      Proceed(d, id, true, amount)
      == At(Created(d, process), id, Protecting(Temporary(process, Counter(d, process))))
  {
    var temporary := Temporary(d.savers[id].process, Counter(d, d.savers[id].process));
    assert Access(d, d.savers[id], true, amount) == (Create(temporary), Protecting(temporary));
  }

  lemma Creates(d: Disk, id: SaverId, amount: nat, n: nat)
    requires id in d.savers && n > 0
    requires Temporary(d.savers[id].process, Counter(d, d.savers[id].process)) !in d.files
    ensures var process := d.savers[id].process;
      Run(At(d, id, Creating(0)), Repeated(id, amount, n))
      == Run(At(Created(d, process), id, Protecting(Temporary(process, Counter(d, process)))),
             Repeated(id, amount, n - 1))
  {
    var process := d.savers[id].process;
    var u := At(d, id, Creating(0));
    var protecting := Protecting(Temporary(process, Counter(d, process)));
    RunAdvance(u, id, amount, n);
    CreatesFile(u, id, amount);
    assert At(Created(u, process), id, protecting).savers == At(Created(d, process), id, protecting).savers;
  }

  lemma WritesText(d: Disk, id: SaverId, temporary: Path, text: Bytes, n: nat)
    requires id in d.savers && d.savers[id].replacement == Some(text) && n > 0
    ensures Run(At(d, id, Writing(temporary, 0)), Repeated(id, |text|, n))
            == Run(At(d.(files := d.files[temporary := text]), id, Syncing(temporary)), Repeated(id, |text|, n - 1))
  {
    var u := At(d, id, Writing(temporary, 0));
    RunAdvance(u, id, |text|, n);
    assert text[..|text|] == text;
    assert Access(u, u.savers[id], true, |text|) == (Write(temporary, text), Syncing(temporary));
    assert Proceed(u, id, true, |text|).savers == At(d, id, Syncing(temporary)).savers;
  }

  lemma GetsToWrite(d: Disk, id: SaverId, amount: nat, n: nat)
    requires id in d.savers && d.savers[id].replacement.Some? && n >= 3
    requires Temporary(d.savers[id].process, Counter(d, d.savers[id].process)) !in d.files
    ensures var process := d.savers[id].process; var temporary := Temporary(process, Counter(d, process));
      Run(At(d, id, Editing), Repeated(id, amount, n))
      == Run(At(Created(d, process), id, Writing(temporary, 0)), Repeated(id, amount, n - 3))
  {
    var process := d.savers[id].process;
    var temporary := Temporary(process, Counter(d, process));
    LooksOn(d, id, Editing, Creating(0), amount, n);
    Creates(d, id, amount, n - 1);
    LooksOn(Created(d, process), id, Protecting(temporary), Writing(temporary, 0), amount, n - 2);
  }

  lemma WritesToRename(d: Disk, id: SaverId, temporary: Path, text: Bytes, n: nat)
    requires id in d.savers && d.savers[id].replacement == Some(text) && n >= 3
    requires temporary.Temporary? && Read(d.files, Target) == d.savers[id].snapshot
    ensures Run(At(d, id, Writing(temporary, 0)), Repeated(id, |text|, n))
            == Run(At(d.(files := d.files[temporary := text]), id, Renaming(temporary, |d.changes|)),
                   Repeated(id, |text|, n - 3))
  {
    var written := d.(files := d.files[temporary := text]);
    WritesText(d, id, temporary, text, n);
    LooksOn(written, id, Syncing(temporary), Rereading(temporary), |text|, n - 1);
    assert Read(written.files, Target) == Read(d.files, Target);
    LooksOn(written, id, Rereading(temporary), Renaming(temporary, |d.changes|), |text|, n - 2);
  }

  /** What a save has done to the disk when it is about to rename. */
  function Prepared(d: Disk, process: Process, text: Bytes): Disk {
    d.(files := d.files[Temporary(process, Counter(d, process)) := text],
       counters := d.counters[process := Counter(d, process) + 1])
  }

  lemma CreatedAndWritten(d: Disk, process: Process, text: Bytes)
    ensures var created := Created(d, process);
      created.(files := created.files[Temporary(process, Counter(d, process)) := text]) == Prepared(d, process, text)
  {
    var temporary := Temporary(process, Counter(d, process));
    assert d.files[temporary := ""][temporary := text] == d.files[temporary := text];
  }

  /** With its name free and the target as its snapshot says, a save gets to the
      point of renaming in six calls. */
  lemma GetsToRename(d: Disk, id: SaverId, text: Bytes, n: nat)
    requires id in d.savers && d.savers[id].replacement == Some(text) && n >= 6
    requires Temporary(d.savers[id].process, Counter(d, d.savers[id].process)) !in d.files
    requires Read(d.files, Target) == d.savers[id].snapshot
    ensures var process := d.savers[id].process; var temporary := Temporary(process, Counter(d, process));
      Run(At(d, id, Editing), Repeated(id, |text|, n))
      == Run(At(Prepared(d, process, text), id, Renaming(temporary, |d.changes|)), Repeated(id, |text|, n - 6))
  {
    var process := d.savers[id].process;
    GetsToWrite(d, id, |text|, n);
    WritesToRename(Created(d, process), id, Temporary(process, Counter(d, process)), text, n - 3);
    CreatedAndWritten(d, process, text);
  }

  /** Two savers from the same snapshot, in processes of their own, both past
      their re-read before either renames. */
  function Crossing(one: Bytes, other: Bytes): seq<Action> {
    [Save(1, 1, None, Some(one)), Save(2, 2, None, Some(other))]
    + (Repeated(1, |one|, 6) + (Repeated(2, |other|, 6) + [Advance(1, true, 0), Advance(2, true, 0)]))
  }

  lemma BothBegin(one: Bytes, other: Bytes)
    ensures Run(Opened(map[]), [Save(1, 1, None, Some(one)), Save(2, 2, None, Some(other))])
            == Opened(map[]).(savers := map[1 := Saver(1, None, Some(one), Editing),
                                            2 := Saver(2, None, Some(other), Editing)])
  {
    var first := Save(1, 1, None, Some(one));
    var second := Save(2, 2, None, Some(other));
    RunFirst(Opened(map[]), first, [second]);
    RunFirst(Step(Opened(map[]), first), second, []);
  }

  lemma FirstGetsToRename(d: Disk, one: Bytes, other: Bytes)
    requires d == Opened(map[]).(savers := map[1 := Saver(1, None, Some(one), Editing),
                                               2 := Saver(2, None, Some(other), Editing)])
    ensures Run(d, Repeated(1, |one|, 6))
            == Disk(map[Temporary(1, 0) := one], map[1 := 1],
                    map[1 := Saver(1, None, Some(one), Renaming(Temporary(1, 0), 0)),
                        2 := Saver(2, None, Some(other), Editing)], None, [], {})
  {
    GetsToRename(d, 1, one, 6);
    assert At(d, 1, Editing) == d;
  }

  lemma SecondGetsToRename(half: Disk, one: Bytes, other: Bytes)
    requires half == Disk(map[Temporary(1, 0) := one], map[1 := 1],
                          map[1 := Saver(1, None, Some(one), Renaming(Temporary(1, 0), 0)),
                              2 := Saver(2, None, Some(other), Editing)], None, [], {})
    ensures Run(half, Repeated(2, |other|, 6))
            == At(Prepared(half, 2, other), 2, Renaming(Temporary(2, 0), 0))
  {
    GetsToRename(half, 2, other, 6);
    assert At(half, 2, Editing) == half;
  }

  lemma BothGetToRename(d: Disk, one: Bytes, other: Bytes)
    requires d == Opened(map[]).(savers := map[1 := Saver(1, None, Some(one), Editing),
                                               2 := Saver(2, None, Some(other), Editing)])
    ensures var ready := Run(Run(d, Repeated(1, |one|, 6)), Repeated(2, |other|, 6));
      && ready.files == map[Temporary(1, 0) := one, Temporary(2, 0) := other] && ready.changes == []
      && ready.savers == map[1 := Saver(1, None, Some(one), Renaming(Temporary(1, 0), 0)),
                             2 := Saver(2, None, Some(other), Renaming(Temporary(2, 0), 0))]
  {
    FirstGetsToRename(d, one, other);
    SecondGetsToRename(Run(d, Repeated(1, |one|, 6)), one, other);
  }

  /** Updates can be lost: both saves succeed, and only the later one's text is
      on disk; it never saw the other. */
  lemma UpdatesMayBeLost(one: Bytes, other: Bytes)
    ensures var d := Run(Opened(map[]), Crossing(one, other));
      && d.files == map[Target := other]
      && d.changes == [Change(Some(1), Some(one)), Change(Some(2), Some(other))]
      && 1 in d.savers && 2 in d.savers && d.savers[1].at == Saved(0, 0) && d.savers[2].at == Saved(1, 0)
  {
    var d := Opened(map[]);
    var begin := [Save(1, 1, None, Some(one)), Save(2, 2, None, Some(other))];
    var rename := [Advance(1, true, 0), Advance(2, true, 0)];
    var begun := Run(d, begin);
    RunConcat(d, begin, Repeated(1, |one|, 6) + (Repeated(2, |other|, 6) + rename));
    RunConcat(begun, Repeated(1, |one|, 6), Repeated(2, |other|, 6) + rename);
    RunConcat(Run(begun, Repeated(1, |one|, 6)), Repeated(2, |other|, 6), rename);
    BothBegin(one, other);
    BothGetToRename(begun, one, other);
    BothRename(Run(Run(begun, Repeated(1, |one|, 6)), Repeated(2, |other|, 6)), one, other);
  }

  lemma BothRename(d: Disk, one: Bytes, other: Bytes)
    requires d.files == map[Temporary(1, 0) := one, Temporary(2, 0) := other] && d.changes == []
    requires d.savers == map[1 := Saver(1, None, Some(one), Renaming(Temporary(1, 0), 0)),
                             2 := Saver(2, None, Some(other), Renaming(Temporary(2, 0), 0))]
    ensures var last := Run(d, [Advance(1, true, 0), Advance(2, true, 0)]);
      && last.files == map[Target := other]
      && last.changes == [Change(Some(1), Some(one)), Change(Some(2), Some(other))]
      && 1 in last.savers && last.savers[1].at == Saved(0, 0) && 2 in last.savers && last.savers[2].at == Saved(1, 0)
  {
    var once := Step(d, Advance(1, true, 0));
    assert once.files == map[Target := one, Temporary(2, 0) := other];
    RunFirst(d, Advance(1, true, 0), [Advance(2, true, 0)]);
    RunFirst(once, Advance(2, true, 0), []);
    assert Step(once, Advance(2, true, 0)).files == map[Target := other];
  }
}
