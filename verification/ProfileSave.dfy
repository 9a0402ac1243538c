/**
  One call of `save` as the agens-cli profile store runs it, on a file system
  nobody else touches meanwhile, and its place among the runs of ProfileStore:
  the code is proved to take only steps that the interleaved model takes.
*/
module ProfileSave {
  import opened Wrappers
  import opened ProfileStore

  /** How the system answers the calls of one save. `writes` says how many bytes
      each write takes; one that takes none, or is not answered, has failed. */
  datatype Io = Io(
    creates: bool, protects: bool, writes: seq<nat>, syncs: bool, rereads: bool, renames: bool, removes: bool)

  /** The first of `tries` names from `sequence` on that is not taken. */
  function FreeName(files: map<Path, Bytes>, process: Process, sequence: nat, tries: nat): (free: Option<nat>)
    ensures free.Some? ==> sequence <= free.value < sequence + tries && Temporary(process, free.value) !in files
    decreases tries
  {
    if tries == 0 then None
    else if Temporary(process, sequence) !in files then Some(sequence)
    else FreeName(files, process, sequence + 1, tries - 1)
  }

  /** Whether the writes get `remaining` more bytes on disk. */
  predicate WritesSuffice(writes: seq<nat>, remaining: nat)
    decreases |writes|
  {
    remaining == 0
    || (writes != [] && writes[0] > 0
        && WritesSuffice(writes[1..], if writes[0] < remaining then remaining - writes[0] else 0))
  }

  /** Everything up to the second read of the target goes through. */
  predicate ReachesReread(
    files: map<Path, Bytes>, sequence: nat, process: Process, snapshot: Option<Bytes>,
    replacement: Option<Bytes>, io: Io)
  {
    && replacement.Some?
    && FreeName(files, process, sequence, 128).Some?
    && io.creates && (snapshot.Some? ==> io.protects)
    && WritesSuffice(io.writes, |replacement.value|)
    && io.syncs && io.rereads
  }

  ghost predicate Alone(schedule: seq<Action>, id: SaverId) {
    forall i :: 0 <= i < |schedule| ==> (schedule[i].Save? || schedule[i].Advance?) && schedule[i].saver == id
  }

  /** The interleaved model gets from `start` to `d` by steps of this saver alone. */
  ghost predicate Leads(start: Disk, d: Disk, id: SaverId) {
    exists schedule :: Alone(schedule, id) && Run(start, schedule) == d
  }

  /** What the model gets to from `start` by steps of this saver alone. */
  ghost function Reach(start: Disk, id: SaverId): iset<Disk> {
    iset d | Leads(start, d, id)
  }

  /** The set holds every disk the saver's own steps lead to from one in it. */
  ghost predicate Closed(reach: iset<Disk>, id: SaverId) {
    forall d, succeeds, amount ::
      d in reach && id in d.savers ==> Proceed(d, id, succeeds, amount) in reach
  }

  lemma ReachIsClosed(start: Disk, id: SaverId)
    ensures Closed(Reach(start, id), id)
  {
    forall d, succeeds, amount | d in Reach(start, id) && id in d.savers
      ensures Proceed(d, id, succeeds, amount) in Reach(start, id)
    {
      LeadsOn(start, d, id, Advance(id, succeeds, amount));
    }
  }

  lemma SaveIsReached(start: Disk, action: Action)
    requires action.Save?
    ensures Step(start, action) in Reach(start, action.saver)
  {
    assert Alone([], action.saver) && Run(start, []) == start;
    LeadsOn(start, start, action.saver, action);
  }

  lemma LeadsOn(start: Disk, d: Disk, id: SaverId, action: Action)
    requires Leads(start, d, id)
    requires (action.Save? || action.Advance?) && action.saver == id
    ensures Leads(start, Step(d, action), id)
  {
    var schedule :| Alone(schedule, id) && Run(start, schedule) == d;
    RunConcat(start, schedule, [action]);
    assert Run(d, [action]) == Step(d, action);
    assert Alone(schedule + [action], id);
  }

  /** Where the model stands when the code is about to make its next call. */
  ghost predicate Stands(reach: iset<Disk>, d: Disk, id: SaverId, process: Process, snapshot: Option<Bytes>,
                         replacement: Option<Bytes>, at: Location, files: map<Path, Bytes>, sequence: nat)
  {
    && Closed(reach, id) && d in reach
    && id in d.savers && d.savers[id] == Saver(process, snapshot, replacement, at)
    && d.files == files && Counter(d, process) == sequence
  }

  /** Where the model stands when the code has returned. */
  ghost predicate Ends(reach: iset<Disk>, d: Disk, id: SaverId, process: Process, snapshot: Option<Bytes>,
                       replacement: Option<Bytes>, result: Result<(), Error>, files: map<Path, Bytes>, sequence: nat)
  {
    && id in d.savers
    && var at := d.savers[id].at;
    && Stands(reach, d, id, process, snapshot, replacement, at, files, sequence)
    && if result.Ok? then at.Saved? else at == Failed(result.error)
  }

  /** The step of the model that matches a call of the code. */
  lemma Advances(reach: iset<Disk>, d: Disk, id: SaverId, succeeds: bool, amount: nat) returns (next: Disk)
    requires Closed(reach, id) && d in reach && id in d.savers
    ensures next == Proceed(d, id, succeeds, amount) && next in reach
  {
    next := Proceed(d, id, succeeds, amount);
  }

  /** One try at a name, as the model takes it. */
  lemma Tried(reach: iset<Disk>, d: Disk, id: SaverId, process: Process, snapshot: Option<Bytes>,
              replacement: Option<Bytes>, tries: nat, files: map<Path, Bytes>, sequence: nat, succeeds: bool)
    returns (next: Disk)
    requires tries < TRIES && Stands(reach, d, id, process, snapshot, replacement, Creating(tries), files, sequence)
    ensures var path := Temporary(process, sequence); var created := path !in files && succeeds;
      Stands(reach, next, id, process, snapshot, replacement,
             if created then Protecting(path) else if path in files then Creating(tries + 1) else Failed(IoFailed),
             if created then files[path := ""] else files, sequence + 1)
  {
    next := Advances(reach, d, id, succeeds, 0);
  }

  /** Out of names. */
  lemma GaveUp(reach: iset<Disk>, d: Disk, id: SaverId, process: Process, snapshot: Option<Bytes>,
               replacement: Option<Bytes>, files: map<Path, Bytes>, sequence: nat) returns (next: Disk)
    requires Stands(reach, d, id, process, snapshot, replacement, Creating(TRIES), files, sequence)
    ensures Stands(reach, next, id, process, snapshot, replacement, Failed(IoFailed), files, sequence)
  {
    next := Advances(reach, d, id, false, 0);
  }

  /** The new file gets the permissions of the target, if there was one. */
  lemma Protected(reach: iset<Disk>, d: Disk, id: SaverId, process: Process, snapshot: Option<Bytes>,
                  replacement: Option<Bytes>, path: Path, files: map<Path, Bytes>, sequence: nat, succeeds: bool)
    returns (next: Disk)
    requires Stands(reach, d, id, process, snapshot, replacement, Protecting(path), files, sequence)
    ensures Stands(reach, next, id, process, snapshot, replacement,
                   if snapshot.Some? && !succeeds then Failed(IoFailed) else Writing(path, 0), files, sequence)
  {
    next := Advances(reach, d, id, succeeds, 0);
  }

  /** One write, as the model takes it. */
  lemma Wrote(reach: iset<Disk>, d: Disk, id: SaverId, process: Process, snapshot: Option<Bytes>, text: Bytes,
              temporary: Path, written: nat, files: map<Path, Bytes>, sequence: nat, succeeds: bool, amount: nat)
    returns (next: Disk)
    requires written <= |text|
    requires Stands(reach, d, id, process, snapshot, Some(text), Writing(temporary, written), files, sequence)
    ensures var done := Grown(text, written, amount);
      Stands(reach, next, id, process, snapshot, Some(text),
             if !succeeds then Removing(temporary, IoFailed)
             else if done == |text| then Syncing(temporary) else Writing(temporary, done),
             files[temporary := text[..done]], sequence)
  {
    next := Advances(reach, d, id, succeeds, amount);
  }

  /** The save has been called, and the edit has been accepted or refused. */
  lemma Begins(start: Disk, reach: iset<Disk>, id: SaverId, process: Process, snapshot: Option<Bytes>,
               replacement: Option<Bytes>)
    returns (d: Disk)
    requires id !in start.savers && Closed(reach, id)
    requires Step(start, Action.Save(id, process, snapshot, replacement)) in reach
    ensures Stands(reach, d, id, process, snapshot, replacement,
                   if replacement.Some? then Creating(0) else Failed(EditRefused), start.files, Counter(start, process))
  {
    d := Step(start, Action.Save(id, process, snapshot, replacement));
    d := Advances(reach, d, id, true, 0);
  }

  /** What a save does to the files and the counter. It succeeds exactly when every
      call does and the target still holds the snapshot; then the target holds the
      replacement and nothing else has changed. Otherwise no file that was there has
      changed, and the temporary one is left behind exactly if it was created and
      then could not be given the target's permissions, or could not be removed. */
  ghost predicate Outcome(
    process: Process, files: map<Path, Bytes>, sequence: nat, snapshot: Option<Bytes>, replacement: Option<Bytes>,
    io: Io, result: Result<(), Error>, files': map<Path, Bytes>, sequence': nat)
  {
    var free := FreeName(files, process, sequence, 128);
    var reached := ReachesReread(files, sequence, process, snapshot, replacement, io);
    && (result == Ok(()) <==> reached && Read(files, Target) == snapshot && io.renames)
    && (result == Err(ConcurrentModification) <==> reached && Read(files, Target) != snapshot)
    && (result == Err(EditRefused) <==> replacement.None?)
    && (result.Ok? ==> files' == files[Target := replacement.value])
    && (result.Err? ==>
          && (forall path :: path in files ==> path in files' && files'[path] == files[path])
          && Read(files', Target) == Read(files, Target)
          && (files' != files <==>
                && replacement.Some? && free.Some? && io.creates
                && ((snapshot.Some? && !io.protects) || !io.removes)))
    && sequence' == if replacement.None? then sequence
                    else if free.Some? then free.value + 1
                    else sequence + 128
  }

  /** No temporary file could be had, or none with the right permissions. */
  lemma NotCreated(
    process: Process, files: map<Path, Bytes>, sequence: nat, snapshot: Option<Bytes>, text: Bytes, io: Io,
    files': map<Path, Bytes>, sequence': nat)
    requires var free := FreeName(files, process, sequence, TRIES);
      && !(free.Some? && io.creates && (snapshot.Some? ==> io.protects))
      && sequence' == (if free.Some? then free.value + 1 else sequence + TRIES)
      && files' == (if free.Some? && io.creates then files[Temporary(process, free.value) := ""] else files)
    ensures Outcome(process, files, sequence, snapshot, Some(text), io, Err(IoFailed), files', sequence')
  {
  }

  /** What the closure and its clean-up made of the files, the new one included. */
  lemma CreatedAndReplaced(
    process: Process, files: map<Path, Bytes>, sequence: nat, snapshot: Option<Bytes>, text: Bytes, io: Io,
    result: Result<(), Error>, files': map<Path, Bytes>)
    requires FreeName(files, process, sequence, TRIES).Some? && io.creates && (snapshot.Some? ==> io.protects)
    requires var temporary := Temporary(process, FreeName(files, process, sequence, TRIES).value);
      var reached := WritesSuffice(io.writes, |text|) && io.syncs && io.rereads;
      && (result == Ok(()) <==> reached && Read(files, Target) == snapshot && io.renames)
      && (result == Err(ConcurrentModification) <==> reached && Read(files, Target) != snapshot)
      && result != Err(EditRefused)
      && (if result.Ok? then files' == files[Target := text]
          else if io.removes then files' == files
          else temporary in files' && files' == files[temporary := files'[temporary]])
    ensures Outcome(process, files, sequence, snapshot, Some(text), io, result, files',
                    FreeName(files, process, sequence, TRIES).value + 1)
  {
  }

  /** The store of one process: the files, and its TEMPORARY_SEQUENCE. */
  class AgentProfileStore {
    var files: map<Path, Bytes>
    var sequence: nat
    const process: Process

    constructor (process: Process, files: map<Path, Bytes>)
      ensures this.process == process && this.files == files && sequence == 0
    {
      this.process := process;
      this.files := files;
      this.sequence := 0;
    }

    /** `create_temporary_file`: it counts on past every name it finds taken, and
        leaves the file behind when it cannot give it the target's permissions. */
    method CreateTemporaryFile(
      id: SaverId, snapshot: Option<Bytes>, replacement: Bytes, io: Io, ghost reach: iset<Disk>, ghost d: Disk)
      returns (temporary: Option<Path>, ghost after: Disk)
      requires Stands(reach, d, id, process, snapshot, Some(replacement), Creating(0), files, sequence)
      modifies this
      ensures var free := FreeName(old(files), process, old(sequence), TRIES);
        && (temporary.Some? <==> free.Some? && io.creates && (snapshot.Some? ==> io.protects))
        && (temporary.Some? ==> temporary.value == Temporary(process, free.value))
        && sequence == (if free.Some? then free.value + 1 else old(sequence) + TRIES)
        && files == (if free.Some? && io.creates then old(files)[Temporary(process, free.value) := ""] else old(files))
      ensures Stands(reach, after, id, process, snapshot, Some(replacement),
                     if temporary.Some? then Writing(temporary.value, 0) else Failed(IoFailed), files, sequence)
    {
      after := d;
      for tries := 0 to TRIES
        invariant files == old(files) && sequence == old(sequence) + tries
        invariant FreeName(files, process, old(sequence), TRIES) == FreeName(files, process, sequence, TRIES - tries)
        invariant Stands(reach, after, id, process, snapshot, Some(replacement), Creating(tries), files, sequence)
      {
        after := Tried(reach, after, id, process, snapshot, Some(replacement), tries, files, sequence, io.creates);
        var path := Temporary(process, sequence);
        sequence := sequence + 1;
        if path in files {
          continue;
        }
        if !io.creates {
          return None, after;
        }
        files := files[path := ""];
        after := Protected(reach, after, id, process, snapshot, Some(replacement), path, files, sequence, io.protects);
        if snapshot.Some? && !io.protects {
          return None, after;
        }
        return Some(path), after;
      }
      after := GaveUp(reach, after, id, process, snapshot, Some(replacement), files, sequence);
      temporary := None;
    }

    /** One write, which takes `amount` bytes or what is left of the text. */
    method WriteSome(
      id: SaverId, snapshot: Option<Bytes>, text: Bytes, temporary: Path, done: nat, amount: nat,
      ghost reach: iset<Disk>, ghost d: Disk)
      returns (more: nat, ghost after: Disk)
      requires done <= |text|
      requires Stands(reach, d, id, process, snapshot, Some(text), Writing(temporary, done), files, sequence)
      modifies this`files
      ensures more == Grown(text, done, amount)
      ensures files == old(files)[temporary := text[..more]]
      ensures Stands(reach, after, id, process, snapshot, Some(text),
                     if more == |text| then Syncing(temporary) else Writing(temporary, more), files, sequence)
    {
      after := Wrote(reach, d, id, process, snapshot, text, temporary, done, files, sequence, true, amount);
      more := Grown(text, done, amount);
      files := files[temporary := text[..more]];
    }

    /** `write_all`: one write after another until the whole text is on disk. */
    method WriteAll(
      id: SaverId, snapshot: Option<Bytes>, text: Bytes, temporary: Path, io: Io,
      ghost reach: iset<Disk>, ghost d: Disk)
      returns (written: bool, ghost after: Disk)
      requires temporary in files && files[temporary] == ""
      requires Stands(reach, d, id, process, snapshot, Some(text), Writing(temporary, 0), files, sequence)
      modifies this`files
      ensures written <==> WritesSuffice(io.writes, |text|)
      ensures temporary in files && files == old(files)[temporary := files[temporary]]
      ensures written ==> files[temporary] == text
      ensures Stands(reach, after, id, process, snapshot, Some(text),
                     if written then Syncing(temporary) else Removing(temporary, IoFailed), files, sequence)
    {
      after := d;
      var done, k := 0, 0;
      while done < |text|
        invariant 0 <= done <= |text| && 0 <= k <= |io.writes|
        invariant files == old(files)[temporary := text[..done]]
        invariant WritesSuffice(io.writes, |text|) == WritesSuffice(io.writes[k..], |text| - done)
        invariant Stands(reach, after, id, process, snapshot, Some(text),
                         if 0 < done == |text| then Syncing(temporary) else Writing(temporary, done), files, sequence)
        decreases |io.writes| - k
      {
        if k == |io.writes| || io.writes[k] == 0 {
          after := Wrote(reach, after, id, process, snapshot, text, temporary, done, files, sequence, false, 0);
          return false, after;
        }
        assert io.writes[k..][1..] == io.writes[k + 1..];
        done, after := WriteSome(id, snapshot, text, temporary, done, io.writes[k], reach, after);
        k := k + 1;
      }
      if text == "" {
        after := Wrote(reach, after, id, process, snapshot, text, temporary, 0, files, sequence, true, 0);
      }
      written := true;
    }

    /** Writes the text out and has it synced. */
    method Persist(
      id: SaverId, snapshot: Option<Bytes>, text: Bytes, temporary: Path, io: Io,
      ghost reach: iset<Disk>, ghost d: Disk)
      returns (persisted: bool, ghost after: Disk)
      requires temporary in files && files[temporary] == ""
      requires Stands(reach, d, id, process, snapshot, Some(text), Writing(temporary, 0), files, sequence)
      modifies this`files
      ensures persisted <==> WritesSuffice(io.writes, |text|) && io.syncs
      ensures temporary in files && files == old(files)[temporary := files[temporary]]
      ensures persisted ==> files[temporary] == text
      ensures Stands(reach, after, id, process, snapshot, Some(text),
                     if persisted then Rereading(temporary) else Removing(temporary, IoFailed), files, sequence)
    {
      persisted, after := WriteAll(id, snapshot, text, temporary, io, reach, d);
      if persisted {
        after := Advances(reach, after, id, io.syncs, 0);
        persisted := io.syncs;
      }
    }

    /** The second read of the target. */
    method Reread(
      id: SaverId, snapshot: Option<Bytes>, text: Bytes, temporary: Path, io: Io,
      ghost reach: iset<Disk>, ghost d: Disk)
      returns (refused: Option<Error>, ghost after: Disk)
      requires Stands(reach, d, id, process, snapshot, Some(text), Rereading(temporary), files, sequence)
      ensures refused == if !io.rereads then Some(IoFailed)
                         else if Read(files, Target) != snapshot then Some(ConcurrentModification)
                         else None
      ensures Stands(reach, after, id, process, snapshot, Some(text),
                     if refused.Some? then Removing(temporary, refused.value) else Renaming(temporary, |after.changes|),
                     files, sequence)
    {
      after := Advances(reach, d, id, io.rereads, 0);
      if !io.rereads {
        return Some(IoFailed), after;
      }
      if Read(files, Target) != snapshot {
        return Some(ConcurrentModification), after;
      }
      refused := None;
    }

    /** The rename. */
    method RenameOver(
      id: SaverId, snapshot: Option<Bytes>, text: Bytes, temporary: Path, ghost seen: nat, io: Io,
      ghost reach: iset<Disk>, ghost d: Disk)
      returns (ghost after: Disk)
      requires temporary in files && files[temporary] == text
      requires Stands(reach, d, id, process, snapshot, Some(text), Renaming(temporary, seen), files, sequence)
      modifies this`files
      ensures files == if io.renames then old(files)[Target := text] - {temporary} else old(files)
      ensures Stands(reach, after, id, process, snapshot, Some(text),
                     if io.renames then Saved(|d.changes|, seen) else Removing(temporary, IoFailed), files, sequence)
    {
      after := Advances(reach, d, id, io.renames, 0);
      if io.renames {
        files := files[Target := text] - {temporary};
      }
    }

    /** The closure of `save`, up to the rename. */
    method Replace(
      id: SaverId, snapshot: Option<Bytes>, text: Bytes, temporary: Path, io: Io,
      ghost reach: iset<Disk>, ghost d: Disk)
      returns (result: Result<(), Error>, ghost after: Disk)
      requires temporary.Temporary? && temporary in files && files[temporary] == ""
      requires Stands(reach, d, id, process, snapshot, Some(text), Writing(temporary, 0), files, sequence)
      modifies this`files
      ensures var before := Read(old(files), Target);
        var reached := WritesSuffice(io.writes, |text|) && io.syncs && io.rereads;
        && (result == Ok(()) <==> reached && before == snapshot && io.renames)
        && (result == Err(ConcurrentModification) <==> reached && before != snapshot)
        && result != Err(EditRefused)
      ensures result.Ok? ==> files == old(files)[Target := text] - {temporary}
      ensures result.Err? ==> temporary in files && files == old(files)[temporary := files[temporary]]
      ensures id in after.savers
      ensures var at := after.savers[id].at;
        && Stands(reach, after, id, process, snapshot, Some(text), at, files, sequence)
        && if result.Ok? then at.Saved? else at == Removing(temporary, result.error)
    {
      var persisted;
      persisted, after := Persist(id, snapshot, text, temporary, io, reach, d);
      if !persisted {
        return Err(IoFailed), after;
      }
      var refused;
      refused, after := Reread(id, snapshot, text, temporary, io, reach, after);
      if refused.Some? {
        return Err(refused.value), after;
      }
      after := RenameOver(id, snapshot, text, temporary, |after.changes|, io, reach, after);
      result := if io.renames then Ok(()) else Err(IoFailed);
    }

    /** The closure and the clean-up after it, whose own result is ignored. */
    method ReplaceOrDiscard(
      id: SaverId, snapshot: Option<Bytes>, text: Bytes, temporary: Path, io: Io,
      ghost reach: iset<Disk>, ghost d: Disk)
      returns (result: Result<(), Error>, ghost after: Disk)
      requires temporary.Temporary? && temporary in files && files[temporary] == ""
      requires Stands(reach, d, id, process, snapshot, Some(text), Writing(temporary, 0), files, sequence)
      modifies this`files
      ensures var before := Read(old(files), Target);
        var reached := WritesSuffice(io.writes, |text|) && io.syncs && io.rereads;
        && (result == Ok(()) <==> reached && before == snapshot && io.renames)
        && (result == Err(ConcurrentModification) <==> reached && before != snapshot)
        && result != Err(EditRefused)
      ensures result.Ok? ==> files == old(files)[Target := text] - {temporary}
      ensures result.Err? && io.removes ==> files == old(files) - {temporary}
      ensures result.Err? && !io.removes ==> temporary in files && files == old(files)[temporary := files[temporary]]
      ensures Ends(reach, after, id, process, snapshot, Some(text), result, files, sequence)
    {
      result, after := Replace(id, snapshot, text, temporary, io, reach, d);
      if result.Err? {
        after := Advances(reach, after, id, io.removes, 0);
        if io.removes {
          files := files - {temporary};
        }
      }
    }

    /** `save` once the edit is accepted. The model stays within any set of disks that
        is closed under this saver's steps. */
    method SaveText(
      id: SaverId, snapshot: Option<Bytes>, text: Bytes, io: Io, ghost reach: iset<Disk>, ghost d: Disk)
      returns (result: Result<(), Error>, ghost after: Disk)
      requires Stands(reach, d, id, process, snapshot, Some(text), Creating(0), files, sequence)
      modifies this
      ensures Outcome(process, old(files), old(sequence), snapshot, Some(text), io, result, files, sequence)
      ensures Ends(reach, after, id, process, snapshot, Some(text), result, files, sequence)
    {
      var temporary;
      temporary, after := CreateTemporaryFile(id, snapshot, text, io, reach, d);
      if temporary.None? {
        NotCreated(process, old(files), old(sequence), snapshot, text, io, files, sequence);
        return Err(IoFailed), after;
      }
      result, after := ReplaceOrDiscard(id, snapshot, text, temporary.value, io, reach, after);
      CreatedAndReplaced(process, old(files), old(sequence), snapshot, text, io, result, files);
    }

    /** `save`, and where it takes the model: by steps of this saver alone, to a
        saver that is saved or has failed as the code says. */
    method Save(id: SaverId, snapshot: Option<Bytes>, replacement: Option<Bytes>, io: Io, ghost start: Disk)
      returns (result: Result<(), Error>, ghost d: Disk)
      requires id !in start.savers && start.files == files && Counter(start, process) == sequence
      modifies this
      ensures Outcome(process, old(files), old(sequence), snapshot, replacement, io, result, files, sequence)
      ensures Ends(Reach(start, id), d, id, process, snapshot, replacement, result, files, sequence)
    {
      ReachIsClosed(start, id);
      SaveIsReached(start, Action.Save(id, process, snapshot, replacement));
      d := Begins(start, Reach(start, id), id, process, snapshot, replacement);
      if replacement.None? {
        return Err(EditRefused), d;
      }
      result, d := SaveText(id, snapshot, replacement.value, io, Reach(start, id), d);
    }
  }
}
