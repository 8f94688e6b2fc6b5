/** Asking an AI about a diff: questions, threads, workers and answers as steps of one state machine. */
module AskProtocol {
  import opened Text
  import opened DiffModel
  import opened Sanitize
  import opened Context
  import opened Plan

  const MAX_CONCURRENT := 3
  const POLL_BATCH := 8

  datatype NoteState = Pending | Answered(body: string) | AskFailed(message: string)

  datatype AskNote = AskNote(id: nat, thread: nat, target: NoteTarget, question: string, state: NoteState)

  datatype AskDraft = AskDraft(id: nat, thread: nat, target: NoteTarget, question: string)

  /** A worker thread: still asking, done but not yet joined, or finished and ready to be reaped. */
  datatype Phase = Running | Reported | Finished

  datatype Worker = Worker(job: nat, phase: Phase)

  datatype Update = Update(job: nat, state: NoteState)

  datatype State = State(
    notes: seq<AskNote>, draft: Option<AskDraft>, nextNote: nat, files: set<string>,
    workers: seq<Worker>, queue: seq<Update>, nextJob: nat,
    jobs: map<nat, nat>, unseen: seq<nat>)

  /** The row a question is asked from, and the target its lines resolve to. */
  datatype RowRef = RowRef(noteId: Option<nat>, fileId: string, oldLine: Option<nat>, newLine: Option<nat>)

  datatype Selection = Selection(row: Option<RowRef>, target: Option<NoteTarget>)

  datatype Action =
    | Begin(selection: Selection)
    | Edit(question: string)
    | Cancel
    | Commit(spawned: bool)
    | Report(job: nat, outcome: NoteState)
    | Exit(job: nat)
    | Poll
    | Reload(files: set<string>)
    | Jump

  function Initial(files: set<string>): State { State([], None, 1, files, [], [], 1, map[], []) }

  // ---- Looking notes up -------------------------------------------------------------------

  predicate Within(range: Option<LineRange>, line: Option<nat>) {
    range.Some? && line.Some? && range.value.start <= line.value <= range.value.end
  }

  /** Whether a row lies among a target's lines. */
  predicate Covers(target: NoteTarget, row: RowRef) {
    target.fileId == row.fileId && (Within(target.newRange, row.newLine) || Within(target.oldRange, row.oldLine))
  }

  function FindNote(notes: seq<AskNote>, id: nat): Option<AskNote> {
    if notes == [] then None else if notes[0].id == id then Some(notes[0]) else FindNote(notes[1..], id)
  }

  function LastCovering(notes: seq<AskNote>, row: RowRef): Option<AskNote> {
    if notes == [] then None else
      var last := notes[|notes| - 1];
      if Covers(last.target, row) then Some(last) else LastCovering(notes[..|notes| - 1], row)
  }

  function LastOfThread(notes: seq<AskNote>, thread: nat): Option<AskNote> {
    if notes == [] then None else
      var last := notes[|notes| - 1];
      if last.thread == thread then Some(last) else LastOfThread(notes[..|notes| - 1], thread)
  }

  predicate ThreadIsPending(notes: seq<AskNote>, thread: nat) {
    LastOfThread(notes, thread).Some? && LastOfThread(notes, thread).value.state == Pending
  }

  /** The root of the thread a question from this row joins: the card it sits on, else the last one covering it. */
  function ThreadRoot(notes: seq<AskNote>, row: Option<RowRef>): Option<AskNote> {
    if row.None? then None else
      var byCard := if row.value.noteId.Some? then FindNote(notes, row.value.noteId.value) else None;
      var matched := if byCard.Some? then byCard else LastCovering(notes, row.value);
      if matched.Some? then FindNote(notes, matched.value.thread) else None
  }

  // ---- The steps --------------------------------------------------------------------------

  function WithState(notes: seq<AskNote>, id: nat, state: NoteState): seq<AskNote> {
    if notes == [] then []
    else if notes[0].id == id then [notes[0].(state := state)] + notes[1..]
    else [notes[0]] + WithState(notes[1..], id, state)
  }

  function BeginStep(s: State, selection: Selection): State {
    var root := ThreadRoot(s.notes, selection.row);
    if root.Some? then
      if ThreadIsPending(s.notes, root.value.id) then s
      else s.(draft := Some(AskDraft(s.nextNote, root.value.id, root.value.target, "")), nextNote := s.nextNote + 1)
    else if selection.target.Some? then
      s.(draft := Some(AskDraft(s.nextNote, s.nextNote, selection.target.value, "")), nextNote := s.nextNote + 1)
    else s
  }

  function EditStep(s: State, question: string): State {
    if s.draft.None? then s
    else s.(draft := Some(s.draft.value.(question := Sanitized(question, false))))
  }

  function CommitDraft(s: State): (State, Option<AskNote>) {
    if s.draft.None? then (s, None) else
      var d := s.draft.value;
      if Trim(d.question) == [] then (s.(draft := None), None)
      else
        var note := AskNote(d.id, d.thread, d.target, Trim(d.question), Pending);
        (s.(draft := None, notes := s.notes + [note]), Some(note))
  }

  function Reaped(workers: seq<Worker>): seq<Worker> {
    if workers == [] then [] else
      var last := workers[|workers| - 1];
      Reaped(workers[..|workers| - 1]) + (if last.phase == Finished then [] else [last])
  }

  /** Starting a job: finished workers are reaped first; a full house or a failed spawn is refused. */
  function StartJob(s: State, spawned: bool): (State, Option<nat>) {
    var workers := Reaped(s.workers);
    if |workers| >= MAX_CONCURRENT then (s.(workers := workers), None)
    else if !spawned then (s.(workers := workers, nextJob := s.nextJob + 1), None)
    else (s.(workers := workers + [Worker(s.nextJob, Running)], nextJob := s.nextJob + 1), Some(s.nextJob))
  }

  const BUSY_MESSAGE := "3 AI questions are already running; wait for one to finish"

  function Dispatch(s: State, note: AskNote, spawned: bool): State {
    if note.target.fileId !in s.files then s else
      var (after, job) := StartJob(s, spawned);
      if job.Some? then after.(jobs := after.jobs[job.value := note.id])
      else after.(notes := WithState(after.notes, note.id, AskFailed(BUSY_MESSAGE)))
  }

  function CommitStep(s: State, spawned: bool): State {
    var (committed, note) := CommitDraft(s);
    if note.Some? then Dispatch(committed, note.value, spawned) else committed
  }

  function WithPhase(workers: seq<Worker>, job: nat, phase: Phase): seq<Worker> {
    seq(|workers|, i requires 0 <= i < |workers| => if workers[i].job == job then Worker(job, phase) else workers[i])
  }

  predicate InPhase(workers: seq<Worker>, job: nat, phase: Phase) {
    Worker(job, phase) in workers
  }

  function LineBytes(s: string): nat {
    if s == [] then 0 else
      var n := s[0] as int;
      (if n < 0x80 then 1 else if n < 0x800 then 2 else if n < 0x10000 then 3 else 4) + LineBytes(s[1..])
  }

  /** The lines of an answer that are kept: at most 80, and at most 8 KiB of them. */
  function KeptLines(lines: seq<string>, kept: nat, bytes: nat): seq<string> {
    if lines == [] || kept >= 80 || bytes + LineBytes(lines[0]) > 8 * 1024 then []
    else [lines[0]] + KeptLines(lines[1..], kept + 1, bytes + LineBytes(lines[0]) + 1)
  }

  function Joined(lines: seq<string>): string {
    if lines == [] then [] else if |lines| == 1 then lines[0] else lines[0] + "\n" + Joined(lines[1..])
  }

  function ClampAnswer(body: string): string {
    var lines := Lines(body);
    var kept := KeptLines(lines, 0, 0);
    Joined(kept) + (if |kept| < |lines| then "\n\U{2026} (answer truncated)" else "")
  }

  function ClampState(state: NoteState): NoteState {
    if state.Answered? then Answered(ClampAnswer(state.body)) else state
  }

  /** One update taken off the channel. */
  function Receive(s: State): State
    requires s.queue != []
  {
    var u := s.queue[0];
    var rest := s.(queue := s.queue[1..]);
    if u.job in s.jobs then
      rest.(jobs := s.jobs - {u.job}, notes := WithState(s.notes, s.jobs[u.job], ClampState(u.state)),
            unseen := s.unseen + [s.jobs[u.job]])
    else rest
  }

  function ReceiveUpTo(s: State, n: nat): State
    decreases n
  {
    if n == 0 || s.queue == [] then s else ReceiveUpTo(Receive(s), n - 1)
  }

  function Live(notes: seq<AskNote>, ids: seq<nat>): seq<nat> {
    if ids == [] then [] else
      var last := ids[|ids| - 1];
      Live(notes, ids[..|ids| - 1]) + (if FindNote(notes, last).Some? then [last] else [])
  }

  function PollStep(s: State): State {
    var t := ReceiveUpTo(s, POLL_BATCH);
    t.(unseen := Live(t.notes, t.unseen), workers := Reaped(t.workers))
  }

  function KeptNotes(notes: seq<AskNote>, files: set<string>): seq<AskNote> {
    if notes == [] then [] else
      var last := notes[|notes| - 1];
      KeptNotes(notes[..|notes| - 1], files) + (if last.target.fileId in files then [last] else [])
  }

  function ReloadStep(s: State, files: set<string>): State {
    s.(files := files, notes := KeptNotes(s.notes, files),
       draft := if s.draft.Some? && s.draft.value.target.fileId !in files then None else s.draft)
  }

  function Step(s: State, a: Action): State {
    match a
    case Begin(selection) => BeginStep(s, selection)
    case Edit(question) => EditStep(s, question)
    case Cancel => s.(draft := None)
    case Commit(spawned) => CommitStep(s, spawned)
    case Report(job, outcome) =>
      s.(workers := WithPhase(s.workers, job, Reported), queue := s.queue + [Update(job, outcome)])
    case Exit(job) => s.(workers := WithPhase(s.workers, job, Finished))
    case Poll => PollStep(s)
    case Reload(files) => ReloadStep(s, files)
    case Jump => s.(unseen := if s.unseen == [] then [] else s.unseen[1..])
  }

  /**
   * When a step can happen: targets come from files under review, a running worker reports once and
   * never `Pending`, and a worker exits only after it reported.
   */
  predicate Enabled(s: State, a: Action) {
    match a
    case Begin(selection) => selection.target.Some? ==> selection.target.value.fileId in s.files
    case Report(job, outcome) => InPhase(s.workers, job, Running) && outcome != Pending
    case Exit(job) => InPhase(s.workers, job, Reported)
    case _ => true
  }

  function Execute(s: State, run: seq<Action>): State {
    if run == [] then s else Step(Execute(s, run[..|run| - 1]), run[|run| - 1])
  }

  predicate Legal(s: State, run: seq<Action>) {
    forall i :: 0 <= i < |run| ==> Enabled(Execute(s, run[..i]), run[i])
  }
}
