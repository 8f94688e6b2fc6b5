/** Every interleaving of the Ask steps keeps questions, threads, jobs and answers consistent. */
module AskProofs {
  import opened Text
  import opened DiffModel
  import opened Plan
  import opened AskProtocol
  import opened AskAnswers

  // ---- The invariant ----------------------------------------------------------------------

  /** Note ids increase in the order notes were asked. */
  ghost predicate Sorted(notes: seq<AskNote>) {
    forall i, j :: 0 <= i < j < |notes| ==> notes[i].id < notes[j].id
  }

  /** Only the last note of a thread can be pending. */
  ghost predicate Turns(notes: seq<AskNote>) {
    forall i, j :: 0 <= i < j < |notes| && notes[i].thread == notes[j].thread ==> notes[i].state != Pending
  }

  ghost predicate IsRoot(n: AskNote, thread: nat, target: NoteTarget) {
    n.id == thread && n.thread == thread && n.target == target
  }

  ghost predicate HasRoot(notes: seq<AskNote>, thread: nat, target: NoteTarget) {
    exists n :: n in notes && IsRoot(n, thread, target)
  }

  /** Every note's thread has its root among the notes, with the same target. */
  ghost predicate Threads(notes: seq<AskNote>) {
    forall n :: n in notes ==> HasRoot(notes, n.thread, n.target)
  }

  ghost predicate NotesOk(s: State) {
    && Sorted(s.notes) && Turns(s.notes) && Threads(s.notes)
    && (forall n :: n in s.notes ==> n.id < s.nextNote && n.target.fileId in s.files)
  }

  ghost predicate DraftOk(s: State) {
    s.draft.Some? ==>
      var d := s.draft.value;
      && d.id < s.nextNote && d.target.fileId in s.files
      && (forall n :: n in s.notes ==> n.id < d.id)
      && (forall job :: job in s.jobs ==> s.jobs[job] < d.id)
      && (d.thread == d.id || HasRoot(s.notes, d.thread, d.target))
      && (forall n :: n in s.notes && n.thread == d.thread ==> n.state != Pending)
  }

  ghost predicate WorkersOk(s: State) {
    && |s.workers| <= MAX_CONCURRENT
    && (forall i :: 0 <= i < |s.workers| ==> s.workers[i].job < s.nextJob)
    && (forall i, j :: 0 <= i < j < |s.workers| ==> s.workers[i].job != s.workers[j].job)
  }

  predicate Queued(queue: seq<Update>, job: nat) {
    exists k :: 0 <= k < |queue| && queue[k].job == job
  }

  /** Every open job is either running or has exactly one update on the channel, and nothing else is on it. */
  ghost predicate ChannelOk(s: State) {
    && (forall k :: 0 <= k < |s.queue| ==> s.queue[k].job in s.jobs && s.queue[k].state != Pending)
    && (forall k, l :: 0 <= k < l < |s.queue| ==> s.queue[k].job != s.queue[l].job)
    && (forall w :: w in s.workers && w.phase == Running ==> w.job in s.jobs)
    && (forall job :: job in s.jobs ==>
          job < s.nextJob && (InPhase(s.workers, job, Running) <==> !Queued(s.queue, job)))
  }

  ghost predicate HasJob(jobs: map<nat, nat>, id: nat) {
    exists job :: job in jobs && jobs[job] == id
  }

  /** Pending notes and open jobs match one to one, except for jobs whose note was dropped. */
  ghost predicate JobsOk(s: State) {
    && (forall a, b :: a in s.jobs && b in s.jobs && s.jobs[a] == s.jobs[b] ==> a == b)
    && (forall job :: job in s.jobs ==> s.jobs[job] < s.nextNote)
    && (forall n :: n in s.notes ==> (n.state == Pending <==> HasJob(s.jobs, n.id)))
  }

  ghost predicate Inv(s: State) {
    NotesOk(s) && DraftOk(s) && WorkersOk(s) && ChannelOk(s) && JobsOk(s)
  }

  // ---- Lookups ----------------------------------------------------------------------------

  lemma {:induction false} FindNoteIs(notes: seq<AskNote>, id: nat)
    ensures FindNote(notes, id).Some? ==> FindNote(notes, id).value in notes && FindNote(notes, id).value.id == id
    ensures FindNote(notes, id).None? ==> forall n :: n in notes ==> n.id != id
  {
    if notes != [] && notes[0].id != id { FindNoteIs(notes[1..], id); }
  }

  lemma {:induction false} LastOfThreadIs(notes: seq<AskNote>, thread: nat)
    requires Turns(notes) && !ThreadIsPending(notes, thread)
    ensures forall n :: n in notes && n.thread == thread ==> n.state != Pending
  {
    if notes != [] {
      var front, last := notes[..|notes| - 1], notes[|notes| - 1];
      if last.thread == thread {
        forall n | n in notes && n.thread == thread ensures n.state != Pending {
          var i :| 0 <= i < |notes| && notes[i] == n;
          if i < |notes| - 1 { assert notes[i].thread == last.thread; }
        }
      } else {
        LastOfThreadIs(front, thread);
      }
    }
  }

  lemma {:induction false} LastCoveringIs(notes: seq<AskNote>, row: RowRef)
    ensures LastCovering(notes, row).Some? ==> LastCovering(notes, row).value in notes
  {
    if notes != [] { LastCoveringIs(notes[..|notes| - 1], row); }
  }

  lemma SameId(notes: seq<AskNote>, a: AskNote, b: AskNote)
    requires Sorted(notes) && a in notes && b in notes && a.id == b.id
    ensures a == b
  {
    var i :| 0 <= i < |notes| && notes[i] == a;
    var j :| 0 <= j < |notes| && notes[j] == b;
    assert i == j;
  }

  /** The root a question joins is a note that starts its own thread. */
  lemma RootIsRoot(notes: seq<AskNote>, row: Option<RowRef>)
    requires Sorted(notes) && Threads(notes) && ThreadRoot(notes, row).Some?
    ensures var root := ThreadRoot(notes, row).value; root in notes && root.thread == root.id
  {
    var r := row.value;
    if r.noteId.Some? { FindNoteIs(notes, r.noteId.value); }
    LastCoveringIs(notes, r);
    var byCard := if r.noteId.Some? then FindNote(notes, r.noteId.value) else None;
    var matched := (if byCard.Some? then byCard else LastCovering(notes, r)).value;
    FindNoteIs(notes, matched.thread);
    var root := ThreadRoot(notes, row).value;
    assert HasRoot(notes, matched.thread, matched.target);
    var other :| other in notes && IsRoot(other, matched.thread, matched.target);
    SameId(notes, root, other);
  }

  // ---- Each step keeps the invariant ------------------------------------------------------

  lemma BeginKeeps(s: State, selection: Selection)
    requires Inv(s) && Enabled(s, Begin(selection))
    ensures Inv(BeginStep(s, selection))
  {
    hide ThreadRoot, ThreadIsPending, LastOfThread;
    var t := BeginStep(s, selection);
    var root := ThreadRoot(s.notes, selection.row);
    if root.Some? {
      RootIsRoot(s.notes, selection.row);
      if !ThreadIsPending(s.notes, root.value.id) {
        LastOfThreadIs(s.notes, root.value.id);
        assert IsRoot(root.value, root.value.id, root.value.target);
        assert HasRoot(s.notes, root.value.id, root.value.target);
        assert DraftOk(t);
      }
    } else if selection.target.Some? {
      forall n | n in s.notes ensures n.thread < s.nextNote {
        assert HasRoot(s.notes, n.thread, n.target);
      }
      assert DraftOk(t);
    }
    assert NotesOk(t) && WorkersOk(t) && ChannelOk(t) && JobsOk(t);
  }

  lemma {:induction false} ReapedKeeps(workers: seq<Worker>)
    ensures |Reaped(workers)| <= |workers|
    ensures forall w :: w in Reaped(workers) <==> w in workers && w.phase != Finished
    ensures (forall i, j :: 0 <= i < j < |workers| ==> workers[i].job != workers[j].job)
      ==> (forall i, j :: 0 <= i < j < |Reaped(workers)| ==> Reaped(workers)[i].job != Reaped(workers)[j].job)
  {
    if workers != [] {
      var front, last := workers[..|workers| - 1], workers[|workers| - 1];
      ReapedKeeps(front);
      assert workers == front + [last];
    }
  }

  lemma ReapKeeps(s: State)
    requires WorkersOk(s) && ChannelOk(s)
    ensures var t := s.(workers := Reaped(s.workers)); WorkersOk(t) && ChannelOk(t)
  {
    ReapedKeeps(s.workers);
    var t := s.(workers := Reaped(s.workers));
    forall i | 0 <= i < |t.workers| ensures t.workers[i].job < t.nextJob {
      assert t.workers[i] in s.workers;
    }
  }

  lemma {:induction false} WithStateIs(notes: seq<AskNote>, id: nat, state: NoteState)
    requires Sorted(notes)
    ensures var after := WithState(notes, id, state);
      |after| == |notes| && forall i :: 0 <= i < |notes| ==>
        after[i] == if notes[i].id == id then notes[i].(state := state) else notes[i]
  {
    if notes != [] && notes[0].id != id { WithStateIs(notes[1..], id, state); }
  }

  /** The same questions, some of them in another state. */
  ghost predicate SameQuestions(before: seq<AskNote>, after: seq<AskNote>) {
    |before| == |after| && forall i :: 0 <= i < |before| ==> after[i] == before[i].(state := after[i].state)
  }

  lemma SameRoots(before: seq<AskNote>, after: seq<AskNote>, thread: nat, target: NoteTarget)
    requires SameQuestions(before, after) && HasRoot(before, thread, target)
    ensures HasRoot(after, thread, target)
  {
    var root :| root in before && IsRoot(root, thread, target);
    var k :| 0 <= k < |before| && before[k] == root;
    assert after[k] in after && IsRoot(after[k], thread, target);
  }

  /** Resolving a note changes neither ids nor threads. */
  lemma ResolveKeepsTurns(notes: seq<AskNote>, id: nat, state: NoteState)
    requires Sorted(notes) && Turns(notes) && state != Pending
    ensures Sorted(WithState(notes, id, state)) && Turns(WithState(notes, id, state))
  {
    hide WithState;
    WithStateIs(notes, id, state);
  }

  lemma ResolveKeepsNotes(s: State, id: nat, state: NoteState)
    requires NotesOk(s) && state != Pending
    ensures NotesOk(s.(notes := WithState(s.notes, id, state)))
  {
    hide WithState, HasRoot, Sorted, Turns;
    WithStateIs(s.notes, id, state);
    ResolveKeepsTurns(s.notes, id, state);
    var after := WithState(s.notes, id, state);
    forall n | n in after
      ensures HasRoot(after, n.thread, n.target) && n.id < s.nextNote && n.target.fileId in s.files {
      var i :| 0 <= i < |after| && after[i] == n;
      assert s.notes[i] in s.notes;
      SameRoots(s.notes, after, n.thread, n.target);
    }
  }

  lemma AppendKeepsNotes(s: State, note: AskNote)
    requires NotesOk(s) && note.id < s.nextNote && note.target.fileId in s.files
    requires forall n :: n in s.notes ==> n.id < note.id
    requires note.thread == note.id || HasRoot(s.notes, note.thread, note.target)
    requires forall n :: n in s.notes && n.thread == note.thread ==> n.state != Pending
    ensures NotesOk(s.(notes := s.notes + [note]))
  {
    var after := s.notes + [note];
    assert after[|s.notes|] == note;
    forall n | n in after ensures HasRoot(after, n.thread, n.target) {
      if n in s.notes {
        assert HasRoot(s.notes, n.thread, n.target);
        var root :| root in s.notes && IsRoot(root, n.thread, n.target);
        assert root in after;
      } else if note.thread == note.id {
        assert IsRoot(note, note.thread, note.target);
      } else {
        var root :| root in s.notes && IsRoot(root, note.thread, note.target);
        assert root in after;
      }
    }
    forall i, j | 0 <= i < j < |after| && after[i].thread == after[j].thread ensures after[i].state != Pending {
      assert after[i] in s.notes;
    }
  }

  lemma StartKeeps(s: State, spawned: bool, note: AskNote)
    requires NotesOk(s) && s.draft.None? && WorkersOk(s) && ChannelOk(s)
    requires note in s.notes && note.state == Pending
    requires note.id < s.nextNote && note.target.fileId in s.files
    requires forall job :: job in s.jobs ==> s.jobs[job] < note.id
    requires forall a, b :: a in s.jobs && b in s.jobs && s.jobs[a] == s.jobs[b] ==> a == b
    requires forall n :: n in s.notes && n.id != note.id ==> (n.state == Pending <==> HasJob(s.jobs, n.id))
    ensures Inv(Dispatch(s, note, spawned))
  {
    hide WithState, Reaped;
    ReapKeeps(s);
    var reaped := s.(workers := Reaped(s.workers));
    var (after, job) := StartJob(s, spawned);
    hide Inv, WorkersOk, ChannelOk, NotesOk;
    if job.Some? {
      StartedJob(reaped, note);
    } else {
      RefusedJob(reaped, note, after.nextJob);
    }
  }

  lemma RefusedJob(r: State, note: AskNote, nextJob: nat)
    requires nextJob >= r.nextJob
    requires NotesOk(r) && r.draft.None? && WorkersOk(r) && ChannelOk(r)
    requires forall job :: job in r.jobs ==> r.jobs[job] < note.id && note.id < r.nextNote
    requires forall a, b :: a in r.jobs && b in r.jobs && r.jobs[a] == r.jobs[b] ==> a == b
    requires forall n :: n in r.notes && n.id != note.id ==> (n.state == Pending <==> HasJob(r.jobs, n.id))
    ensures Inv(r.(nextJob := nextJob, notes := WithState(r.notes, note.id, AskFailed(BUSY_MESSAGE))))
  {
    hide WithState, HasJob, InPhase, Queued, Sorted, Turns, Threads;
    ResolveKeepsNotes(r, note.id, AskFailed(BUSY_MESSAGE));
    var after := WithState(r.notes, note.id, AskFailed(BUSY_MESSAGE));
    RefusedNotes(r.notes, r.jobs, note.id);
    var t := r.(nextJob := nextJob, notes := after);
    hide JobsOk;
    assert NotesOk(r.(notes := after));
    assert NotesOk(t) && WorkersOk(t) && ChannelOk(t);
    JobsOkOf(t);
  }

  lemma JobsOkOf(t: State)
    requires forall a, b :: a in t.jobs && b in t.jobs && t.jobs[a] == t.jobs[b] ==> a == b
    requires forall job :: job in t.jobs ==> t.jobs[job] < t.nextNote
    requires forall n :: n in t.notes ==> (n.state == Pending <==> HasJob(t.jobs, n.id))
    ensures JobsOk(t)
  {
    hide HasJob;
  }

  /** A refused question has no job and is not pending; the others are as they were. */
  lemma RefusedNotes(notes: seq<AskNote>, jobs: map<nat, nat>, id: nat)
    requires Sorted(notes) && forall job :: job in jobs ==> jobs[job] < id
    requires forall n :: n in notes && n.id != id ==> (n.state == Pending <==> HasJob(jobs, n.id))
    ensures forall n :: n in WithState(notes, id, AskFailed(BUSY_MESSAGE)) ==>
      (n.state == Pending <==> HasJob(jobs, n.id))
  {
    hide WithState;
    WithStateIs(notes, id, AskFailed(BUSY_MESSAGE));
    var after := WithState(notes, id, AskFailed(BUSY_MESSAGE));
    forall n | n in after ensures n.state == Pending <==> HasJob(jobs, n.id) {
      var i :| 0 <= i < |after| && after[i] == n;
      assert notes[i] in notes;
    }
  }

  lemma OtherJobs(jobs: map<nat, nat>, job: nat, id: nat, other: nat)
    requires job !in jobs && other != id
    ensures HasJob(jobs[job := id], other) <==> HasJob(jobs, other)
  {
    if HasJob(jobs, other) {
      var k :| k in jobs && jobs[k] == other;
      assert k in jobs[job := id] && jobs[job := id][k] == other;
    }
  }

  lemma StartedJob(r: State, note: AskNote)
    requires NotesOk(r) && r.draft.None? && WorkersOk(r) && ChannelOk(r) && |r.workers| < MAX_CONCURRENT
    requires note in r.notes && note.state == Pending
    requires forall job :: job in r.jobs ==> r.jobs[job] < note.id
    requires forall a, b :: a in r.jobs && b in r.jobs && r.jobs[a] == r.jobs[b] ==> a == b
    requires forall n :: n in r.notes && n.id != note.id ==> (n.state == Pending <==> HasJob(r.jobs, n.id))
    ensures var job := r.nextJob;
      Inv(r.(workers := r.workers + [Worker(job, Running)], nextJob := job + 1, jobs := r.jobs[job := note.id]))
  {
    hide HasJob, Sorted, Turns, Threads;
    var job := r.nextJob;
    var t := r.(workers := r.workers + [Worker(job, Running)], nextJob := job + 1, jobs := r.jobs[job := note.id]);
    StartedChannel(r, note.id);
    StartedNotes(r, note);
    hide ChannelOk;
    assert job !in r.jobs;
    JobsOkOf(t);
    hide JobsOk;
    assert NotesOk(t) && WorkersOk(t);
  }

  /** A new worker takes over no open job, and its own has no update yet. */
  lemma StartedChannel(r: State, id: nat)
    requires WorkersOk(r) && ChannelOk(r)
    ensures r.nextJob !in r.jobs
    ensures ChannelOk(r.(workers := r.workers + [Worker(r.nextJob, Running)], nextJob := r.nextJob + 1,
      jobs := r.jobs[r.nextJob := id]))
  {
    var job := r.nextJob;
    var t := r.(workers := r.workers + [Worker(job, Running)], nextJob := job + 1, jobs := r.jobs[job := id]);
    assert t.workers[|r.workers|] == Worker(job, Running);
    assert job !in r.jobs && !Queued(t.queue, job);
    forall k | k in r.jobs ensures InPhase(t.workers, k, Running) <==> InPhase(r.workers, k, Running) {
    }
  }

  lemma StartedNotes(r: State, note: AskNote)
    requires NotesOk(r) && r.nextJob !in r.jobs && note in r.notes && note.state == Pending
    requires forall n :: n in r.notes && n.id != note.id ==> (n.state == Pending <==> HasJob(r.jobs, n.id))
    ensures forall n :: n in r.notes ==> (n.state == Pending <==> HasJob(r.jobs[r.nextJob := note.id], n.id))
  {
    var jobs := r.jobs[r.nextJob := note.id];
    assert HasJob(jobs, note.id) by { assert jobs[r.nextJob] == note.id; }
    hide HasJob;
    forall n | n in r.notes ensures n.state == Pending <==> HasJob(jobs, n.id) {
      if n.id == note.id { SameId(r.notes, n, note); } else { OtherJobs(r.jobs, r.nextJob, note.id, n.id); }
    }
  }

  lemma CommitKeeps(s: State, spawned: bool)
    requires Inv(s)
    ensures Inv(CommitStep(s, spawned))
  {
    var (committed, note) := CommitDraft(s);
    if note.Some? {
      var d := s.draft.value;
      AppendKeepsNotes(s, note.value);
      assert committed.notes[|s.notes|] == note.value;
      assert ChannelOk(committed);
      forall n | n in committed.notes && n.id != note.value.id
        ensures n.state == Pending <==> HasJob(committed.jobs, n.id)
      {
        assert n in s.notes;
      }
      StartKeeps(committed, spawned, note.value);
    } else {
      assert NotesOk(committed) && ChannelOk(committed) && JobsOk(committed);
    }
  }

  lemma PhaseKeeps(s: State, job: nat, from: Phase, to: Phase)
    requires WorkersOk(s) && InPhase(s.workers, job, from) && to != Running
    ensures var after := WithPhase(s.workers, job, to);
      && WorkersOk(s.(workers := after))
      && (forall w :: w in after && w.phase == Running ==> w in s.workers && w.job != job)
      && (forall w :: w in s.workers && w.job != job ==> w in after)
  {
    var after := WithPhase(s.workers, job, to);
    forall w | w in s.workers && w.job != job ensures w in after {
      var i :| 0 <= i < |s.workers| && s.workers[i] == w;
      assert after[i] == w;
    }
  }

  lemma ReportKeeps(s: State, job: nat, outcome: NoteState)
    requires Inv(s) && Enabled(s, Report(job, outcome))
    ensures Inv(Step(s, Report(job, outcome)))
  {
    var t := Step(s, Report(job, outcome));
    PhaseKeeps(s, job, Running, Reported);
    assert t.queue[|s.queue|] == Update(job, outcome);
    forall k | k in t.jobs ensures InPhase(t.workers, k, Running) <==> !Queued(t.queue, k) {
      if k != job {
        assert InPhase(t.workers, k, Running) <==> InPhase(s.workers, k, Running);
        if Queued(s.queue, k) {
          var q :| 0 <= q < |s.queue| && s.queue[q].job == k;
          assert t.queue[q].job == k;
        }
      }
    }
    assert !Queued(s.queue, job);
    assert ChannelOk(t);
    assert NotesOk(t) && DraftOk(t) && JobsOk(t);
  }

  lemma OnePhase(workers: seq<Worker>, job: nat, phase: Phase, other: Phase)
    requires forall i, j :: 0 <= i < j < |workers| ==> workers[i].job != workers[j].job
    requires InPhase(workers, job, phase) && phase != other
    ensures !InPhase(workers, job, other)
  {
    var i :| 0 <= i < |workers| && workers[i] == Worker(job, phase);
    forall j | 0 <= j < |workers| ensures workers[j] != Worker(job, other) {
      if workers[j].job == job { assert j == i; }
    }
  }

  lemma ExitKeeps(s: State, job: nat)
    requires Inv(s) && Enabled(s, Exit(job))
    ensures Inv(Step(s, Exit(job)))
  {
    var t := Step(s, Exit(job));
    PhaseKeeps(s, job, Reported, Finished);
    OnePhase(s.workers, job, Reported, Running);
    forall k | k in t.jobs ensures InPhase(t.workers, k, Running) <==> InPhase(s.workers, k, Running) {
    }
    assert ChannelOk(t);
    assert NotesOk(t) && DraftOk(t) && JobsOk(t);
  }

  lemma ReceiveKeeps(s: State)
    requires Inv(s) && s.queue != []
    ensures Inv(Receive(s))
  {
    hide WithState, Receive, ClampState;
    ReceiveNotes(s);
    ReceiveChannel(s);
    ReceiveJobs(s);
    if s.draft.Some? {
      ReceiveKeepsDraft(s);
    }
    assert Receive(s).draft == s.draft by { ReceiveFrame(s); }
  }

  lemma ReceiveFrame(s: State)
    requires s.queue != [] && s.queue[0].job in s.jobs
    ensures var u, t := s.queue[0], Receive(s);
      && t == s.(queue := s.queue[1..], jobs := s.jobs - {u.job}, unseen := s.unseen + [s.jobs[u.job]],
                 notes := WithState(s.notes, s.jobs[u.job], ClampState(u.state)))
  {
  }

  lemma ReceiveNotes(s: State)
    requires Inv(s) && s.queue != []
    ensures NotesOk(Receive(s))
  {
    hide WithState;
    ResolveKeepsNotes(s, s.jobs[s.queue[0].job], ClampState(s.queue[0].state));
  }

  /** The notes after an update: the job's note settled, the others untouched. */
  lemma ReceivedNote(s: State, n: AskNote) returns (m: AskNote)
    requires Inv(s) && s.queue != [] && n in Receive(s).notes
    ensures var id := s.jobs[s.queue[0].job];
      && m in s.notes && m.id == n.id && m.thread == n.thread && m.target == n.target
      && (if m.id == id then n.state != Pending else n == m)
  {
    hide WithState;
    var u, t := s.queue[0], Receive(s);
    WithStateIs(s.notes, s.jobs[u.job], ClampState(u.state));
    var i :| 0 <= i < |t.notes| && t.notes[i] == n;
    m := s.notes[i];
  }

  lemma ReceiveJobs(s: State)
    requires Inv(s) && s.queue != []
    ensures JobsOk(Receive(s))
  {
    hide WithState, ClampState;
    var u, t := s.queue[0], Receive(s);
    var id := s.jobs[u.job];
    forall n | n in t.notes ensures n.state == Pending <==> HasJob(t.jobs, n.id) {
      var m := ReceivedNote(s, n);
      if n.id != id && HasJob(s.jobs, n.id) {
        var k :| k in s.jobs && s.jobs[k] == n.id;
        assert k in t.jobs && t.jobs[k] == n.id;
      }
    }
  }

  lemma ReceiveKeepsDraft(s: State)
    requires Inv(s) && s.queue != [] && s.draft.Some?
    ensures DraftOk(Receive(s))
  {
    hide WithState, ClampState;
    var u, t, d := s.queue[0], Receive(s), s.draft.value;
    forall n | n in t.notes ensures n.id < d.id && (n.thread == d.thread ==> n.state != Pending) {
      var m := ReceivedNote(s, n);
    }
    if d.thread != d.id {
      WithStateIs(s.notes, s.jobs[u.job], ClampState(u.state));
      SameRoots(s.notes, t.notes, d.thread, d.target);
    }
  }

  /** Taking the first update off leaves every other job's update queued. */
  lemma QueuedBehind(queue: seq<Update>)
    requires queue != []
    ensures forall k :: k != queue[0].job ==> (Queued(queue[1..], k) <==> Queued(queue, k))
  {
    forall k | k != queue[0].job ensures Queued(queue[1..], k) <==> Queued(queue, k) {
      if Queued(queue, k) {
        var q :| 0 <= q < |queue| && queue[q].job == k;
        assert queue[1..][q - 1].job == k;
      }
      if Queued(queue[1..], k) {
        var q :| 0 <= q < |queue[1..]| && queue[1..][q].job == k;
        assert queue[q + 1].job == k;
      }
    }
  }

  lemma ReceiveChannel(s: State)
    requires ChannelOk(s) && WorkersOk(s) && s.queue != []
    ensures ChannelOk(Receive(s)) && WorkersOk(Receive(s))
  {
    hide WithState, ClampState;
    var u, t := s.queue[0], Receive(s);
    QueuedBehind(s.queue);
    assert Queued(s.queue, u.job);
    hide Queued, Receive;
    ReceiveFrame(s);
    forall q | 0 <= q < |t.queue| ensures t.queue[q].job in t.jobs && t.queue[q].state != Pending {
      assert t.queue[q] == s.queue[q + 1];
    }
    forall w | w in t.workers && w.phase == Running ensures w.job in t.jobs {
      assert InPhase(s.workers, w.job, Running);
    }
  }

  lemma ReceiveNone(s: State, n: nat)
    requires n == 0 || s.queue == []
    ensures ReceiveUpTo(s, n) == s && Monus(|s.queue|, n) == if n == 0 then |s.queue| else 0
  {
  }

  lemma MonusStep(a: nat, b: nat)
    requires a > 0 && b > 0
    ensures Monus(a, b) == Monus(a - 1, b - 1)
  {
  }

  lemma ReceiveUpToStep(s: State, n: nat)
    requires n > 0 && s.queue != []
    ensures ReceiveUpTo(s, n) == ReceiveUpTo(Receive(s), n - 1)
    ensures |Receive(s).queue| == |s.queue| - 1
  {
    hide WithState, ClampState;
  }

  lemma {:induction false} ReceiveUpToKeeps(s: State, n: nat)
    requires Inv(s)
    ensures Inv(ReceiveUpTo(s, n)) && |ReceiveUpTo(s, n).queue| == Monus(|s.queue|, n)
    decreases n
  {
    hide *;
    if n == 0 || s.queue == [] {
      ReceiveNone(s, n);
    } else {
      ReceiveKeeps(s);
      ReceiveUpToStep(s, n);
      ReceiveUpToKeeps(Receive(s), n - 1);
      assert Monus(|s.queue|, n) == Monus(|s.queue| - 1, n - 1) by { MonusStep(|s.queue|, n); }
    }
  }

  lemma PollKeeps(s: State)
    requires Inv(s)
    ensures Inv(PollStep(s)) && |PollStep(s).queue| == Monus(|s.queue|, POLL_BATCH)
  {
    hide ReceiveUpTo, Live;
    ReceiveUpToKeeps(s, POLL_BATCH);
    var t := ReceiveUpTo(s, POLL_BATCH);
    ReapKeeps(t);
    assert NotesOk(PollStep(s)) && DraftOk(PollStep(s)) && JobsOk(PollStep(s));
  }

  /** Appending a later note of a thread whose earlier notes are settled. */
  lemma PushTurn(kept: seq<AskNote>, last: AskNote)
    requires Sorted(kept) && Turns(kept)
    requires forall n :: n in kept ==> n.id < last.id && (n.thread == last.thread ==> n.state != Pending)
    ensures Sorted(kept + [last]) && Turns(kept + [last])
  {
    var after := kept + [last];
    forall i, j | 0 <= i < j < |after|
      ensures after[i].id < after[j].id && (after[i].thread == after[j].thread ==> after[i].state != Pending)
    {
      assert after[i] in kept;
    }
  }

  lemma {:induction false} KeptNotesIs(notes: seq<AskNote>, files: set<string>)
    requires Sorted(notes) && Turns(notes)
    ensures var kept := KeptNotes(notes, files);
      && Sorted(kept) && Turns(kept)
      && (forall n :: n in kept <==> n in notes && n.target.fileId in files)
  {
    if notes != [] {
      hide Sorted, Turns;
      var front, last := notes[..|notes| - 1], notes[|notes| - 1];
      FrontTurns(notes);
      KeptNotesIs(front, files);
      assert notes == front + [last];
      PushTurn(KeptNotes(front, files), last);
    }
  }

  lemma FrontTurns(notes: seq<AskNote>)
    requires notes != [] && Sorted(notes) && Turns(notes)
    ensures var front, last := notes[..|notes| - 1], notes[|notes| - 1];
      && Sorted(front) && Turns(front)
      && forall n :: n in front ==> n.id < last.id && (n.thread == last.thread ==> n.state != Pending)
  {
    var front, last := notes[..|notes| - 1], notes[|notes| - 1];
    forall n | n in front ensures n.id < last.id && (n.thread == last.thread ==> n.state != Pending) {
      var i :| 0 <= i < |front| && front[i] == n;
      assert notes[i] == n;
    }
  }

  lemma KeptThreads(notes: seq<AskNote>, files: set<string>, thread: nat, target: NoteTarget)
    requires Sorted(notes) && Turns(notes) && HasRoot(notes, thread, target) && target.fileId in files
    ensures HasRoot(KeptNotes(notes, files), thread, target)
  {
    KeptNotesIs(notes, files);
    var root :| root in notes && IsRoot(root, thread, target);
    assert root in KeptNotes(notes, files);
  }

  /** A reload drops a question together with its whole thread, since a thread has one target. */
  lemma ReloadKeeps(s: State, files: set<string>)
    requires Inv(s)
    ensures Inv(ReloadStep(s, files))
  {
    hide KeptNotes;
    KeptNotesIs(s.notes, files);
    var t := ReloadStep(s, files);
    forall n | n in t.notes ensures HasRoot(t.notes, n.thread, n.target) {
      KeptThreads(s.notes, files, n.thread, n.target);
    }
    assert NotesOk(t) && ChannelOk(t) && JobsOk(t);
    if t.draft.Some? && t.draft.value.thread != t.draft.value.id {
      KeptThreads(s.notes, files, t.draft.value.thread, t.draft.value.target);
    }
  }

  lemma StepKeeps(s: State, a: Action)
    requires Inv(s) && Enabled(s, a)
    ensures Inv(Step(s, a))
  {
    hide BeginStep, CommitStep, PollStep, ReloadStep, WithPhase, Sanitize.Sanitized, Sorted, Turns, Threads, HasRoot,
      Queued, InPhase, HasJob;
    match a
    case Begin(selection) => BeginKeeps(s, selection);
    case Commit(spawned) => CommitKeeps(s, spawned);
    case Report(job, outcome) => ReportKeeps(s, job, outcome);
    case Exit(job) => ExitKeeps(s, job);
    case Poll => PollKeeps(s);
    case Reload(files) => ReloadKeeps(s, files);
    case Edit(_) =>
      assert NotesOk(Step(s, a)) && DraftOk(Step(s, a)) && ChannelOk(Step(s, a)) && JobsOk(Step(s, a));
    case _ =>
      assert NotesOk(Step(s, a)) && DraftOk(Step(s, a)) && ChannelOk(Step(s, a)) && JobsOk(Step(s, a));
  }

  // ---- Whole runs -------------------------------------------------------------------------

  /** Every legal interleaving, of any length, from any set of files keeps the invariant. */
  lemma {:induction false} RunKeeps(files: set<string>, run: seq<Action>)
    requires Legal(Initial(files), run)
    ensures Inv(Execute(Initial(files), run))
  {
    if run != [] {
      hide Inv, Step, Enabled;
      var front := run[..|run| - 1];
      assert forall i :: 0 <= i < |front| ==> run[..i] == front[..i];
      RunKeeps(files, front);
      assert Enabled(Execute(Initial(files), run[..|front|]), run[|front|]);
      StepKeeps(Execute(Initial(files), front), run[|front|]);
    } else {
      InitialOk(files);
    }
  }

  lemma InitialOk(files: set<string>)
    ensures Inv(Initial(files))
  {
  }

  /** The note's job is at work, or done with its one answer waiting on the channel; there is no other job for it. */
  ghost predicate Pursued(s: State, id: nat, job: nat) {
    && job in s.jobs && s.jobs[job] == id
    && (forall other :: other in s.jobs && s.jobs[other] == id ==> other == job)
    && (InPhase(s.workers, job, Running) <==> !Queued(s.queue, job))
    && (forall k, l :: 0 <= k < |s.queue| && 0 <= l < |s.queue| && s.queue[k].job == s.queue[l].job == job ==> k == l)
  }

  /**
   * Nothing is stranded: at any point of any run, every pending note has exactly one job, running or answered but not
   * polled.
   */
  lemma NeverStranded(files: set<string>, run: seq<Action>, n: AskNote)
    requires Legal(Initial(files), run) && n in Execute(Initial(files), run).notes
    ensures n.state == Pending <==> exists job :: Pursued(Execute(Initial(files), run), n.id, job)
  {
    RunKeeps(files, run);
    hide Execute, Legal, InPhase, Queued, Sorted, Turns, Threads, HasRoot;
    var s := Execute(Initial(files), run);
    if n.state == Pending {
      assert HasJob(s.jobs, n.id);
      var job :| job in s.jobs && s.jobs[job] == n.id;
      OneUpdate(s, job);
      assert Pursued(s, n.id, job);
    } else {
      assert !HasJob(s.jobs, n.id);
    }
  }

  lemma OneUpdate(s: State, job: nat)
    requires ChannelOk(s) && job in s.jobs
    ensures forall k, l :: 0 <= k < |s.queue| && 0 <= l < |s.queue| && s.queue[k].job == s.queue[l].job == job ==>
      k == l
    ensures InPhase(s.workers, job, Running) <==> !Queued(s.queue, job)
  {
    hide InPhase, Queued;
  }

  predicate SomeoneRuns(s: State) { exists w :: w in s.workers && w.phase == Running }

  function Polled(s: State, polls: nat): State { if polls == 0 then s else PollStep(Polled(s, polls - 1)) }

  lemma {:induction false} ReceiveUpToWorkers(s: State, n: nat)
    ensures ReceiveUpTo(s, n).workers == s.workers
    decreases n
  {
    if n > 0 && s.queue != [] { ReceiveUpToWorkers(Receive(s), n - 1); }
  }

  lemma {:induction false} ReapedAreWorkers(workers: seq<Worker>)
    ensures forall w :: w in Reaped(workers) ==> w in workers
  {
    if workers != [] { ReapedAreWorkers(workers[..|workers| - 1]); }
  }

  lemma PollStartsNobody(s: State)
    ensures SomeoneRuns(PollStep(s)) ==> SomeoneRuns(s)
  {
    hide Live;
    ReceiveUpToWorkers(s, POLL_BATCH);
    ReapedAreWorkers(s.workers);
  }

  lemma OneMorePoll(s: State, polls: nat)
    ensures Polled(s, polls) == if polls == 0 then s else PollStep(Polled(s, polls - 1))
    ensures Monus(|s.queue|, POLL_BATCH * 0) == |s.queue|
  {
    hide PollStep;
  }

  lemma MonusMore(n: nat, polls: nat)
    requires polls > 0
    ensures Monus(Monus(n, POLL_BATCH * (polls - 1)), POLL_BATCH) == Monus(n, POLL_BATCH * polls)
  {
  }

  lemma {:induction false} PollsKeep(s: State, polls: nat)
    requires Inv(s) && !SomeoneRuns(s)
    ensures Inv(Polled(s, polls)) && !SomeoneRuns(Polled(s, polls))
    ensures |Polled(s, polls).queue| == Monus(|s.queue|, POLL_BATCH * polls)
  {
    hide *;
    OneMorePoll(s, polls);
    if polls > 0 {
      PollsKeep(s, polls - 1);
      PollKeeps(Polled(s, polls - 1));
      PollStartsNobody(Polled(s, polls - 1));
      MonusMore(|s.queue|, polls);
    }
  }

  /** Once the last worker has reported, polling until the channel is empty leaves no question pending. */
  lemma PollsResolveAll(s: State, polls: nat)
    requires Inv(s) && !SomeoneRuns(s) && |s.queue| <= POLL_BATCH * polls
    ensures forall n :: n in Polled(s, polls).notes ==> n.state != Pending
  {
    hide Polled;
    PollsKeep(s, polls);
    var t := Polled(s, polls);
    forall job ensures job !in t.jobs {
      assert !Queued(t.queue, job) && !InPhase(t.workers, job, Running);
    }
  }

  /** Note `id` is gone for good or has reached its one final state. */
  ghost predicate Settled(s: State, id: nat, state: NoteState) {
    && id < s.nextNote && state != Pending
    && (s.draft.Some? ==> s.draft.value.id != id)
    && (forall n :: n in s.notes && n.id == id ==> n.state == state)
  }

  lemma ReceiveSettled(s: State, id: nat, state: NoteState)
    requires Inv(s) && s.queue != [] && Settled(s, id, state)
    ensures Settled(Receive(s), id, state)
  {
    var u, t := s.queue[0], Receive(s);
    WithStateIs(s.notes, s.jobs[u.job], ClampState(u.state));
    assert HasJob(s.jobs, s.jobs[u.job]);
    forall i | 0 <= i < |s.notes| && s.notes[i].id == id ensures t.notes[i] == s.notes[i] {
      assert s.notes[i] in s.notes;
    }
  }

  lemma {:induction false} ReceiveUpToSettled(s: State, n: nat, id: nat, state: NoteState)
    requires Inv(s) && Settled(s, id, state)
    ensures Settled(ReceiveUpTo(s, n), id, state)
    decreases n
  {
    hide *;
    if n == 0 || s.queue == [] {
      ReceiveNone(s, n);
    } else {
      ReceiveKeeps(s);
      ReceiveUpToStep(s, n);
      ReceiveSettled(s, id, state);
      ReceiveUpToSettled(Receive(s), n - 1, id, state);
    }
  }

  lemma CommitSettled(s: State, spawned: bool, id: nat, state: NoteState)
    requires Inv(s) && Settled(s, id, state)
    ensures Settled(CommitStep(s, spawned), id, state)
  {
    hide StartJob, Trim, WithState, WorkersOk, ChannelOk, JobsOk, HasRoot, Turns, Threads;
    var (committed, note) := CommitDraft(s);
    if note.Some? {
      AppendKeepsNotes(s, note.value);
      assert Sorted(committed.notes) && forall n :: n in committed.notes && n.id == id ==> n.state == state;
      hide Sorted, NotesOk, DraftOk, Inv, CommitDraft;
      StartJobFrame(committed, spawned);
      FailedSettled(committed.notes, note.value.id, id, state);
    }
  }

  /** Failing one note leaves another's state alone. */
  lemma FailedSettled(notes: seq<AskNote>, failed: nat, id: nat, state: NoteState)
    requires Sorted(notes) && failed != id && forall n :: n in notes && n.id == id ==> n.state == state
    ensures forall n :: n in WithState(notes, failed, AskFailed(BUSY_MESSAGE)) && n.id == id ==> n.state == state
  {
    hide WithState;
    WithStateIs(notes, failed, AskFailed(BUSY_MESSAGE));
    var after := WithState(notes, failed, AskFailed(BUSY_MESSAGE));
    forall n | n in after && n.id == id ensures n.state == state {
      var i :| 0 <= i < |after| && after[i] == n;
      assert notes[i] in notes;
    }
  }

  lemma StartJobFrame(s: State, spawned: bool)
    ensures var t := StartJob(s, spawned).0;
      t.notes == s.notes && t.draft == s.draft && t.nextNote == s.nextNote && t.jobs == s.jobs && t.files == s.files
  {
  }

  lemma StepSettled(s: State, a: Action, id: nat, state: NoteState)
    requires Inv(s) && Enabled(s, a) && Settled(s, id, state)
    ensures Settled(Step(s, a), id, state)
  {
    hide CommitStep, WithPhase, ReceiveUpTo, Live, Reaped, KeptNotes, ThreadRoot, ThreadIsPending;
    match a
    case Commit(spawned) => CommitSettled(s, spawned, id, state);
    case Poll => ReceiveUpToSettled(s, POLL_BATCH, id, state);
    case Reload(files) => KeptNotesIs(s.notes, files);
    case _ =>
  }

  /** A question is resolved at most once: whatever runs afterwards, a settled note keeps its state or is dropped. */
  lemma {:induction false} ResolvedOnce(s: State, run: seq<Action>, id: nat, state: NoteState)
    requires Inv(s) && Legal(s, run) && Settled(s, id, state)
    ensures Inv(Execute(s, run)) && Settled(Execute(s, run), id, state)
  {
    if run != [] {
      hide Inv, Step, Enabled, Settled;
      var front := run[..|run| - 1];
      assert forall i :: 0 <= i < |front| ==> run[..i] == front[..i];
      ResolvedOnce(s, front, id, state);
      assert Enabled(Execute(s, run[..|front|]), run[|front|]);
      StepKeeps(Execute(s, front), run[|front|]);
      StepSettled(Execute(s, front), run[|front|], id, state);
    }
  }

  /**
   * An update resolves exactly the note its job was started for, with that job's own outcome: a failure as it was
   * reported, an answer cut to the lines that fit.
   */
  lemma ReceiveAnswersItsNote(s: State, i: nat)
    requires Inv(s) && s.queue != [] && i < |s.notes|
    ensures |Receive(s).notes| == |s.notes|
    ensures Receive(s).notes[i] == if s.jobs[s.queue[0].job] == s.notes[i].id
                                   then s.notes[i].(state := ClampState(s.queue[0].state)) else s.notes[i]
    ensures s.jobs[s.queue[0].job] == s.notes[i].id ==> IsStored(s.queue[0].state, Receive(s).notes[i].state)
  {
    hide IsStored, ClampState;
    OutcomeIsStored(s.queue[0].state);
    WithStateIs(s.notes, s.jobs[s.queue[0].job], ClampState(s.queue[0].state));
  }

  // ---- Which thread a question joins ------------------------------------------------------

  ghost predicate OnCard(notes: seq<AskNote>, row: RowRef) {
    exists n :: n in notes && row.noteId == Some(n.id)
  }

  /** A question from this row follows note i: the one whose card the row is, or else the last whose lines hold it. */
  ghost predicate Follows(notes: seq<AskNote>, row: RowRef, i: nat) {
    i < |notes| && if OnCard(notes, row) then row.noteId == Some(notes[i].id)
    else Covers(notes[i].target, row) && forall j :: i < j < |notes| ==> !Covers(notes[j].target, row)
  }

  lemma {:induction false} LastIndex(notes: seq<AskNote>, row: RowRef) returns (k: nat)
    ensures k <= |notes| && LastCovering(notes, row) == if k < |notes| then Some(notes[k]) else None
    ensures k < |notes| ==> Covers(notes[k].target, row)
    ensures forall j :: k < j < |notes| ==> !Covers(notes[j].target, row)
    ensures k == |notes| ==> forall j :: 0 <= j < |notes| ==> !Covers(notes[j].target, row)
  {
    k := 0;
    if notes != [] {
      var last := |notes| - 1;
      if Covers(notes[last].target, row) {
        k := last;
      } else {
        k := LastIndex(notes[..last], row);
        if k == last { k := |notes|; }
      }
    }
  }

  lemma {:induction false} PendingInThread(notes: seq<AskNote>, thread: nat)
    ensures ThreadIsPending(notes, thread) ==> exists n :: n in notes && n.thread == thread && n.state == Pending
  {
    if notes != [] && notes[|notes| - 1].thread != thread { PendingInThread(notes[..|notes| - 1], thread); }
  }

  lemma RootFollowed(notes: seq<AskNote>, row: RowRef, i: nat)
    requires Sorted(notes) && Threads(notes) && Follows(notes, row, i)
    ensures ThreadRoot(notes, Some(row)).Some?
    ensures IsRoot(ThreadRoot(notes, Some(row)).value, notes[i].thread, notes[i].target)
  {
    hide Covers, Sorted, Threads, FindNote, LastCovering, IsRoot, HasRoot;
    var n := notes[i];
    NoteFollowed(notes, row, i);
    assert HasRoot(notes, n.thread, n.target) by { RootThere(notes, n); }
    RootIs(notes, n.thread, n.target);
  }

  lemma RootThere(notes: seq<AskNote>, n: AskNote)
    requires Threads(notes) && n in notes
    ensures HasRoot(notes, n.thread, n.target)
  {
  }

  lemma NoteFollowed(notes: seq<AskNote>, row: RowRef, i: nat)
    requires Sorted(notes) && Follows(notes, row, i)
    ensures var byCard := if row.noteId.Some? then FindNote(notes, row.noteId.value) else None;
      (if byCard.Some? then byCard else LastCovering(notes, row)) == Some(notes[i])
  {
    hide Covers, Sorted, FindNote, LastCovering;
    var k := LastIndex(notes, row);
    if row.noteId.Some? {
      FindNoteIs(notes, row.noteId.value);
      if OnCard(notes, row) { SameId(notes, FindNote(notes, row.noteId.value).value, notes[i]); }
    }
  }

  lemma RootIs(notes: seq<AskNote>, thread: nat, target: NoteTarget)
    requires Sorted(notes) && HasRoot(notes, thread, target)
    ensures FindNote(notes, thread).Some? && IsRoot(FindNote(notes, thread).value, thread, target)
  {
    hide Sorted, FindNote;
    var root :| root in notes && IsRoot(root, thread, target);
    FindNoteIs(notes, thread);
    SameId(notes, FindNote(notes, thread).value, root);
  }

  /** The note that is followed gives the thread, and what it is about; it waits while the thread has no answer. */
  lemma BeginFollows(s: State, selection: Selection, i: nat)
    requires Inv(s) && selection.row.Some? && i < |s.notes| && Follows(s.notes, selection.row.value, i)
    ensures BeginStep(s, selection) ==
      if exists n :: n in s.notes && n.thread == s.notes[i].thread && n.state == Pending then s
      else s.(draft := Some(AskDraft(s.nextNote, s.notes[i].thread, s.notes[i].target, "")), nextNote := s.nextNote + 1)
  {
    hide Inv, ThreadRoot, ThreadIsPending, Follows, FindNote, Sorted, Turns, Threads;
    assert Sorted(s.notes) && Turns(s.notes) && Threads(s.notes) by { InvNotes(s); }
    RootFollowed(s.notes, selection.row.value, i);
    PendingInThread(s.notes, s.notes[i].thread);
    if !ThreadIsPending(s.notes, s.notes[i].thread) { LastOfThreadIs(s.notes, s.notes[i].thread); }
  }

  lemma InvNotes(s: State)
    requires Inv(s)
    ensures Sorted(s.notes) && Turns(s.notes) && Threads(s.notes)
  {
  }

  /** With no note to follow, a question starts a thread of its own, about the selected lines. */
  lemma BeginAlone(s: State, selection: Selection)
    requires selection.row.Some? ==> forall i: nat :: !Follows(s.notes, selection.row.value, i)
    ensures BeginStep(s, selection) ==
      if selection.target.None? then s
      else s.(draft := Some(AskDraft(s.nextNote, s.nextNote, selection.target.value, "")), nextNote := s.nextNote + 1)
  {
    if selection.row.Some? {
      var row := selection.row.value;
      if row.noteId.Some? { FindNoteIs(s.notes, row.noteId.value); }
      NothingFollowed(s.notes, row);
    }
  }

  lemma NothingFollowed(notes: seq<AskNote>, row: RowRef)
    requires forall i: nat :: !Follows(notes, row, i)
    ensures !OnCard(notes, row) && LastCovering(notes, row).None?
  {
    if OnCard(notes, row) {
      var n :| n in notes && row.noteId == Some(n.id);
      var i: nat :| i < |notes| && notes[i] == n;
      assert Follows(notes, row, i);
    }
    var k := LastIndex(notes, row);
    assert !Follows(notes, row, k);
  }
}
