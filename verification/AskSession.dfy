/** The Ask runtime and the session around it as the objects whose fields they update. */
module AskSession {
  import opened Text
  import opened DiffModel
  import opened Sanitize
  import opened Plan
  import opened AskProtocol
  import opened AskAnswers

  /** Worker handles and the channel their updates arrive on. */
  class AskRuntime {
    var workers: seq<Worker>
    var channel: seq<Update>
    var nextId: nat

    constructor ()
      ensures workers == [] && channel == [] && nextId == 1
    {
      workers, channel, nextId := [], [], 1;
    }

    method Reap()
      modifies this`workers
      ensures workers == Reaped(old(workers))
    {
      var kept := [];
      for i := 0 to |workers|
        invariant workers == old(workers) && kept == Reaped(workers[..i])
      {
        assert workers[..i + 1][..i] == workers[..i];
        if workers[i].phase != Finished {
          kept := kept + [workers[i]];
        }
      }
      assert workers[..|workers|] == workers;
      workers := kept;
    }

    /** Starts a job on a new worker, unless three are held after reaping or the thread cannot be spawned. */
    method Start(spawned: bool) returns (id: Option<nat>)
      modifies this`workers, this`nextId
      ensures |Reaped(old(workers))| >= MAX_CONCURRENT ==>
        id == None && workers == Reaped(old(workers)) && nextId == old(nextId)
      ensures |Reaped(old(workers))| < MAX_CONCURRENT && !spawned ==>
        id == None && workers == Reaped(old(workers)) && nextId == old(nextId) + 1
      ensures |Reaped(old(workers))| < MAX_CONCURRENT && spawned ==>
        id == Some(old(nextId)) && workers == Reaped(old(workers)) + [Worker(old(nextId), Running)]
        && nextId == old(nextId) + 1
    {
      Reap();
      if |workers| >= MAX_CONCURRENT {
        return None;
      }
      var job := nextId;
      nextId := nextId + 1;
      if !spawned {
        return None;
      }
      workers := workers + [Worker(job, Running)];
      id := Some(job);
    }

    method TryRecv() returns (update: Option<Update>)
      modifies this`channel
      ensures old(channel) == [] ==> update == None && channel == []
      ensures old(channel) != [] ==> update == Some(old(channel)[0]) && channel == old(channel)[1..]
    {
      if channel == [] {
        return None;
      }
      update := Some(channel[0]);
      channel := channel[1..];
    }

    /** What a worker thread does when its job returns: send the outcome, then end. */
    method Report(job: nat, outcome: NoteState)
      modifies this`workers, this`channel
      ensures workers == WithPhase(old(workers), job, Reported)
      ensures channel == old(channel) + [Update(job, outcome)]
    {
      workers := WithPhase(workers, job, Reported);
      channel := channel + [Update(job, outcome)];
    }

    method Exit(job: nat)
      modifies this`workers
      ensures workers == WithPhase(old(workers), job, Finished)
    {
      workers := WithPhase(workers, job, Finished);
    }
  }

  datatype AskStart = Started(id: nat) | ThreadPending | Unavailable

  class AskSession {
    const runtime: AskRuntime
    var notes: seq<AskNote>
    var draft: Option<AskDraft>
    var nextAskId: nat
    var files: set<string>
    var jobs: map<nat, nat>
    var unseen: seq<nat>

    ghost function View(): State
      reads this, runtime
    {
      State(notes, draft, nextAskId, files, runtime.workers, runtime.channel, runtime.nextId, jobs, unseen)
    }

    constructor (files: set<string>)
      ensures fresh(runtime) && View() == Initial(files)
    {
      runtime := new AskRuntime();
      notes, draft, nextAskId, jobs, unseen := [], None, 1, map[], [];
      this.files := files;
    }

    method BeginAsk(selection: Selection) returns (start: AskStart)
      modifies this
      ensures View() == Step(old(View()), Begin(selection))
      ensures start.Started? <==> draft != old(draft)
      ensures start.Started? ==> draft.Some? && draft.value.id == start.id
      ensures start.ThreadPending? <==> var root := ThreadRoot(old(notes), selection.row);
        root.Some? && ThreadIsPending(old(notes), root.value.id)
      requires draft.Some? ==> draft.value.id < nextAskId
    {
      var root := ThreadRoot(notes, selection.row);
      if root.Some? && ThreadIsPending(notes, root.value.id) {
        return ThreadPending;
      }
      var id := nextAskId;
      if root.Some? {
        draft := Some(AskDraft(id, root.value.id, root.value.target, ""));
      } else if selection.target.Some? {
        draft := Some(AskDraft(id, id, selection.target.value, ""));
      } else {
        return Unavailable;
      }
      nextAskId := nextAskId + 1;
      start := Started(id);
    }

    method UpdateAskDraft(question: string)
      modifies this
      ensures View() == Step(old(View()), Edit(question))
    {
      if draft.Some? {
        var clean := SanitizeTerminalText(question, false);
        draft := Some(draft.value.(question := clean));
      }
    }

    method CancelAskDraft()
      modifies this
      ensures View() == Step(old(View()), Cancel)
    {
      draft := None;
    }

    method ResolveAsk(id: nat, state: NoteState) returns (found: bool)
      modifies this`notes
      ensures notes == WithState(old(notes), id, ClampState(state))
      ensures IsStored(state, ClampState(state))
      ensures found <==> FindNote(old(notes), id).Some?
    {
      OutcomeIsStored(state);
      hide IsStored, ClampState;
      var state := ClampState(state);
      var i := 0;
      WithStateFrom(notes, id, state, 0);
      while i < |notes| && notes[i].id != id
        invariant 0 <= i <= |notes| && notes == old(notes)
        invariant WithState(notes, id, state) == notes[..i] + WithState(notes[i..], id, state)
        invariant FindNote(notes, id) == FindNote(notes[i..], id)
      {
        WithStateFrom(notes, id, state, i);
        i := i + 1;
      }
      WithStateFrom(notes, id, state, i);
      found := i < |notes|;
      if found {
        notes := notes[i := notes[i].(state := state)];
      }
    }

    /** Committing the draft and handing the question to a worker. */
    method CommitAsk(spawned: bool)
      modifies this, runtime
      ensures View() == Step(old(View()), Commit(spawned))
    {
      if draft.None? {
        return;
      }
      var d := draft.value;
      draft := None;
      var question := Trim(d.question);
      if question == [] {
        return;
      }
      var note := AskNote(d.id, d.thread, d.target, question, Pending);
      notes := notes + [note];
      DispatchAsk(note, spawned);
    }

    method DispatchAsk(note: AskNote, spawned: bool)
      modifies this, runtime
      ensures View() == Dispatch(old(View()), note, spawned)
    {
      if note.target.fileId !in files {
        return;
      }
      var id := runtime.Start(spawned);
      if id.Some? {
        jobs := jobs[id.value := note.id];
      } else {
        var _ := ResolveAsk(note.id, AskFailed(BUSY_MESSAGE));
      }
    }

    /** Takes one update off the channel and resolves its note; an update no open job expects is ignored. */
    method TakeUpdate() returns (known: bool)
      requires runtime.channel != []
      modifies this, runtime
      ensures View() == Receive(old(View()))
    {
      hide WithState, ClampState;
      var update := runtime.TryRecv();
      var u := update.value;
      known := u.job in jobs;
      if known {
        var noteId := jobs[u.job];
        jobs := jobs - {u.job};
        var _ := ResolveAsk(noteId, u.state);
        unseen := unseen + [noteId];
      }
    }

    method PollAsk() returns (changed: bool)
      modifies this, runtime
      ensures View() == Step(old(View()), Poll)
    {
      changed := false;
      ghost var start := View();
      var n := POLL_BATCH;
      while n > 0 && runtime.channel != []
        invariant 0 <= n <= POLL_BATCH
        invariant ReceiveUpTo(View(), n) == ReceiveUpTo(start, POLL_BATCH)
        decreases n
      {
        hide Receive;
        var known := TakeUpdate();
        changed := changed || known;
        n := n - 1;
      }
      RetainLive();
      runtime.Reap();
    }

    method RetainLive()
      modifies this`unseen
      ensures unseen == Live(notes, old(unseen))
    {
      var kept := [];
      for i := 0 to |unseen|
        invariant unseen == old(unseen) && kept == Live(notes, unseen[..i])
      {
        assert unseen[..i + 1][..i] == unseen[..i];
        if FindNote(notes, unseen[i]).Some? {
          kept := kept + [unseen[i]];
        }
      }
      assert unseen[..|unseen|] == unseen;
      unseen := kept;
    }

    method ReplaceFiles(files: set<string>)
      modifies this
      ensures View() == Step(old(View()), Reload(files))
    {
      this.files := files;
      var kept := [];
      for i := 0 to |notes|
        invariant notes == old(notes) && kept == KeptNotes(notes[..i], files)
        invariant View() == old(View()).(files := files)
      {
        assert notes[..i + 1][..i] == notes[..i];
        if notes[i].target.fileId in files {
          kept := kept + [notes[i]];
        }
      }
      assert notes[..|notes|] == notes;
      notes := kept;
      if draft.Some? && draft.value.target.fileId !in files {
        draft := None;
      }
    }

    /** Takes the oldest answer not looked at yet. */
    method JumpToAskAnswer() returns (id: Option<nat>)
      modifies this`unseen
      ensures View() == Step(old(View()), Jump)
      ensures id == if old(unseen) == [] then None else Some(old(unseen)[0])
    {
      if unseen == [] {
        return None;
      }
      id := Some(unseen[0]);
      unseen := unseen[1..];
    }
  }

  lemma WithStateFrom(notes: seq<AskNote>, id: nat, state: NoteState, i: nat)
    requires i <= |notes|
    ensures notes[0..] == notes && notes[..0] == []
    ensures i == |notes| ==> WithState(notes[i..], id, state) == [] && FindNote(notes[i..], id) == None
    ensures i < |notes| ==> notes[i..][0] == notes[i] && notes[i..][1..] == notes[i + 1..]
    ensures i < |notes| && notes[i].id == id ==>
      notes[..i] + WithState(notes[i..], id, state) == notes[i := notes[i].(state := state)]
    ensures i < |notes| && notes[i].id != id ==>
      notes[..i] + WithState(notes[i..], id, state) == notes[..i + 1] + WithState(notes[i + 1..], id, state)
  {
  }
}
