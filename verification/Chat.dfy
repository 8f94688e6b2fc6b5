/** The chat pane: what each turn tells the model, and the watermark of what it has been told. */
module Chat {
  import opened Text
  import opened DiffModel
  import opened Sanitize

  const MAX_ENTRIES: nat := 40
  const MAX_NOTE_CHARS: nat := 2000
  const MAX_ANSWER_CHARS: nat := 800
  const MAX_REPLAY_TURNS: nat := 8
  const MAX_REPLAY_CHARS: nat := 6000

  datatype TurnState = Waiting | Replied(answer: string) | Refused(reason: string)

  datatype Turn = Turn(question: string, state: TurnState)

  /** A note under its anchor, or an answer under its question. */
  datatype Entry = Entry(id: string, caption: string, body: string)

  datatype Kind = Notes | Asks

  datatype Work = Work(notes: seq<Entry>, asks: seq<Entry>, overall: Option<string>)

  /** Digests of what has been sent, by note and by answer. */
  datatype Sent = Sent(header: bool, notes: map<string, nat>, asks: map<string, nat>, overall: Option<nat>)

  const NOTHING_SENT := Sent(false, map[], map[], None)

  /** A list in the prompt: its first entries, and how many more there were. */
  datatype Section<T> = Section(shown: seq<T>, dropped: nat)

  datatype Prompt = Prompt(header: bool, replay: seq<string>, created: Section<Entry>, changed: Section<Entry>,
                           removed: Section<string>, answers: Section<Entry>, overall: Option<string>, question: string)

  type Digest = string -> nat

  // ---- What one turn sends ----------------------------------------------------------------

  function Clamp(value: string, limit: nat): string {
    var text := Trim(Sanitized(value, false));
    if |text| <= limit then text else text[..limit] + "\U{2026} (truncated)"
  }

  function Limit(kind: Kind): nat { if kind == Notes then MAX_NOTE_CHARS else MAX_ANSWER_CHARS }

  function Clamped(kind: Kind, e: Entry): Entry {
    Entry(e.id, if kind == Notes then e.caption else Clamp(e.caption, MAX_NOTE_CHARS), Clamp(e.body, Limit(kind)))
  }

  datatype Status = Unseen | Changed | Unchanged

  function StatusOf(digest: Digest, seen: map<string, nat>, id: string, body: string): Status {
    if id !in seen then Unseen else if seen[id] == digest(body) then Unchanged else Changed
  }

  /** The entries of one status, clamped and in order. */
  function Select(kind: Kind, digest: Digest, seen: map<string, nat>, entries: seq<Entry>,
                  wanted: set<Status>): seq<Entry> {
    if entries == [] then [] else
      var last := Clamped(kind, entries[|entries| - 1]);
      Select(kind, digest, seen, entries[..|entries| - 1], wanted)
        + (if StatusOf(digest, seen, last.id, last.body) in wanted then [last] else [])
  }

  /** The watermark with every entry's digest put in. */
  function MarkAll(kind: Kind, digest: Digest, seen: map<string, nat>, entries: seq<Entry>): map<string, nat> {
    if entries == [] then seen else
      var last := Clamped(kind, entries[|entries| - 1]);
      MarkAll(kind, digest, seen, entries[..|entries| - 1])[last.id := digest(last.body)]
  }

  function Ids(entries: seq<Entry>): set<string> { set i | 0 <= i < |entries| :: entries[i].id }

  function Gone(seen: map<string, nat>, entries: seq<Entry>): set<string> { seen.Keys - Ids(entries) }

  ghost predicate IsFirst(id: string, ids: set<string>) {
    id in ids && forall other :: other in ids ==> other == id || Precedes(id, other)
  }

  lemma {:induction false} FirstExists(ids: set<string>) returns (first: string)
    requires ids != {}
    ensures IsFirst(first, ids)
    decreases |ids|
  {
    var any :| any in ids;
    if ids == {any} {
      first := any;
    } else {
      var rest := ids - {any};
      assert ids == rest + {any};
      first := FirstExists(rest);
      PrecedesIsTotal(first, any);
      if Precedes(any, first) {
        forall other | other in ids ensures other == any || Precedes(any, other) {
          if other != any && other != first { PrecedesIsTransitive(any, first, other); }
        }
        first := any;
      }
    }
  }

  /** A set of ids in the order an ordered map lists its keys. */
  ghost function InOrder(ids: set<string>): seq<string>
    decreases |ids|
  {
    if ids == {} then [] else
      assert exists id :: IsFirst(id, ids) by { var first := FirstExists(ids); }
      var first :| IsFirst(first, ids);
      [first] + InOrder(ids - {first})
  }

  function Cut<T>(lines: seq<T>): Section<T> {
    Section(lines[..Min(|lines|, MAX_ENTRIES)], Monus(|lines|, MAX_ENTRIES))
  }

  /** Whether the overall comment is worth sending at all, clamped. */
  function Overall(work: Work): Option<string> {
    if work.overall.Some? && Trim(work.overall.value) != [] then Some(Clamp(work.overall.value, MAX_NOTE_CHARS))
      else None
  }

  function ReplayEntry(turn: Turn): string
    requires turn.state.Replied?
  {
    "- asked: " + Clamp(turn.question, MAX_NOTE_CHARS) + "\n  answered: " + Clamp(turn.state.answer, MAX_ANSWER_CHARS)
  }

  /** The thread carried in the prompt: the newest of the last `turns` turns that fit the budget, oldest first. */
  function Replayed(replay: seq<Turn>, turns: nat, budget: nat): seq<string> {
    if turns == 0 || replay == [] then [] else
      var front, last := replay[..|replay| - 1], replay[|replay| - 1];
      if !last.state.Replied? then Replayed(front, turns - 1, budget)
      else if |ReplayEntry(last)| > budget then []
      else Replayed(front, turns - 1, budget - |ReplayEntry(last)|) + [ReplayEntry(last)]
  }

  ghost function PromptFor(digest: Digest, work: Work, sent: Sent, replay: seq<Turn>, question: string): Prompt {
    Prompt(
      !sent.header,
      Replayed(replay, MAX_REPLAY_TURNS, MAX_REPLAY_CHARS),
      Cut(Select(Notes, digest, sent.notes, work.notes, {Unseen})),
      Cut(Select(Notes, digest, sent.notes, work.notes, {Changed})),
      Cut(InOrder(Gone(sent.notes, work.notes))),
      Cut(Select(Asks, digest, sent.asks, work.asks, {Unseen, Changed})),
      if Overall(work).Some? && sent.overall != Some(digest(Overall(work).value)) then Overall(work) else None,
      Trim(Sanitized(question, false)))
  }

  ghost function NextSent(digest: Digest, work: Work, sent: Sent): Sent {
    Sent(true,
      MarkAll(Notes, digest, sent.notes, work.notes) - Gone(sent.notes, work.notes),
      MarkAll(Asks, digest, sent.asks, work.asks),
      if Overall(work).Some? then Some(digest(Overall(work).value)) else sent.overall)
  }

  method ReplayLines(replay: seq<Turn>) returns (lines: seq<string>)
    ensures lines == Replayed(replay, MAX_REPLAY_TURNS, MAX_REPLAY_CHARS)
  {
    lines := [];
    var budget: nat, turns: nat, at: nat := MAX_REPLAY_CHARS, MAX_REPLAY_TURNS, |replay|;
    assert replay[..|replay|] == replay;
    while at > 0 && turns > 0
      invariant at <= |replay|
      invariant Replayed(replay[..at], turns, budget) + lines == Replayed(replay, MAX_REPLAY_TURNS, MAX_REPLAY_CHARS)
      decreases at
    {
      hide ReplayEntry;
      var turn := replay[at - 1];
      assert replay[..at][..at - 1] == replay[..at - 1];
      if turn.state.Replied? {
        var entry := ReplayEntry(turn);
        if |entry| > budget {
          break;
        }
        Assoc(Replayed(replay[..at - 1], turns - 1, budget - |entry|), [entry], lines);
        budget := budget - |entry|;
        lines := [entry] + lines;
      }
      at, turns := at - 1, turns - 1;
    }
  }

  lemma SelectPush(kind: Kind, digest: Digest, seen: map<string, nat>, entries: seq<Entry>, i: nat, wanted: set<Status>)
    requires i < |entries|
    ensures var line := Clamped(kind, entries[i]);
      && Select(kind, digest, seen, entries[..i + 1], wanted) == Select(kind, digest, seen, entries[..i], wanted)
           + (if StatusOf(digest, seen, line.id, line.body) in wanted then [line] else [])
      && MarkAll(kind, digest, seen, entries[..i + 1])
           == MarkAll(kind, digest, seen, entries[..i])[line.id := digest(line.body)]
  {
    hide Clamped, StatusOf;
    assert entries[..i + 1][..i] == entries[..i];
  }

  lemma NothingSelected(kind: Kind, digest: Digest, seen: map<string, nat>, entries: seq<Entry>)
    ensures forall wanted :: Select(kind, digest, seen, entries[..0], wanted) == []
    ensures MarkAll(kind, digest, seen, entries[..0]) == seen
  {
  }

  /** Sorts the entries of one kind into new and changed ones, and marks them. */
  method Classify(kind: Kind, digest: Digest, seen: map<string, nat>, entries: seq<Entry>)
    returns (created: seq<Entry>, changed: seq<Entry>, either: seq<Entry>, marks: map<string, nat>)
    ensures created == Select(kind, digest, seen, entries, {Unseen})
    ensures changed == Select(kind, digest, seen, entries, {Changed})
    ensures either == Select(kind, digest, seen, entries, {Unseen, Changed})
    ensures marks == MarkAll(kind, digest, seen, entries)
  {
    hide Clamped, Select, MarkAll;
    created, changed, either, marks := [], [], [], seen;
    NothingSelected(kind, digest, seen, entries);
    for i := 0 to |entries|
      invariant created == Select(kind, digest, seen, entries[..i], {Unseen})
      invariant changed == Select(kind, digest, seen, entries[..i], {Changed})
      invariant either == Select(kind, digest, seen, entries[..i], {Unseen, Changed})
      invariant marks == MarkAll(kind, digest, seen, entries[..i])
    {
      SelectPush(kind, digest, seen, entries, i, {Unseen});
      SelectPush(kind, digest, seen, entries, i, {Changed});
      SelectPush(kind, digest, seen, entries, i, {Unseen, Changed});
      var line := Clamped(kind, entries[i]);
      var mark := digest(line.body);
      if line.id !in seen {
        created, either := created + [line], either + [line];
      } else if seen[line.id] != mark {
        changed, either := changed + [line], either + [line];
      }
      marks := marks[line.id := mark];
    }
    assert entries[..|entries|] == entries;
  }

  /** The sent notes that are gone, in key order. */
  method RemovedIds(seen: map<string, nat>, entries: seq<Entry>) returns (removed: seq<string>)
    ensures removed == InOrder(Gone(seen, entries))
  {
    hide Gone, InOrder, Precedes;
    removed := [];
    var left := seen.Keys - Ids(entries);
    StartGone(seen, entries);
    NoneInOrder();
    while left != {}
      invariant removed + InOrder(left) == InOrder(Gone(seen, entries))
      decreases |left|
    {
      ghost var first := FirstExists(left);
      var id :| id in left && forall other :: other in left ==> other == id || Precedes(id, other);
      OnlyFirst(id, left);
      assert removed + ([id] + InOrder(left - {id})) == (removed + [id]) + InOrder(left - {id});
      removed := removed + [id];
      left := left - {id};
    }
  }

  lemma NoneInOrder()
    ensures InOrder({}) == []
  {
  }

  lemma StartGone(seen: map<string, nat>, entries: seq<Entry>)
    ensures Gone(seen, entries) == seen.Keys - Ids(entries)
  {
  }

  lemma OnlyFirst(id: string, ids: set<string>)
    requires IsFirst(id, ids)
    ensures InOrder(ids) == [id] + InOrder(ids - {id})
  {
    forall other | IsFirst(other, ids) ensures other == id { PrecedesIsTotal(id, other); }
  }

  method ComposePrompt(digest: Digest, work: Work, sent: Sent, replay: seq<Turn>, question: string)
    returns (prompt: Prompt, next: Sent)
    ensures prompt == PromptFor(digest, work, sent, replay, question)
    ensures next == NextSent(digest, work, sent)
  {
    hide Select, MarkAll, Replayed, InOrder;
    var thread := ReplayLines(replay);
    var created, changed, _, marks := Classify(Notes, digest, sent.notes, work.notes);
    var removed := RemovedIds(sent.notes, work.notes);
    marks := marks - (sent.notes.Keys - Ids(work.notes));
    var _, _, answers, asked := Classify(Asks, digest, sent.asks, work.asks);
    next := Sent(true, marks, asked, sent.overall);
    var overall := None;
    if work.overall.Some? && Trim(work.overall.value) != [] {
      var text := Clamp(work.overall.value, MAX_NOTE_CHARS);
      if sent.overall != Some(digest(text)) {
        overall := Some(text);
      }
      next := next.(overall := Some(digest(text)));
    }
    prompt := Prompt(!sent.header, thread, Cut(created), Cut(changed), Cut(removed), Cut(answers), overall,
                     Trim(Sanitized(question, false)));
  }

  // ---- The pane ---------------------------------------------------------------------------

  class ChatPane {
    const digest: Digest
    var turns: seq<Turn>
    var sent: Sent
    var replay: bool
    var draft: string
    var jobs: map<nat, nat>
    var dirty: bool

    constructor (digest: Digest)
      ensures sent == NOTHING_SENT && turns == [] && !replay && jobs == map[] && this.digest == digest
    {
      this.digest := digest;
      turns, sent, replay, draft, jobs, dirty := [], NOTHING_SENT, false, [], map[], false;
    }

    /**
     * Sends the drafted question; `started` is the worker's job, or why there is none. Only a dispatched
     * turn moves the watermark, so a refused one leaves its delta to be sent again.
     */
    method SendTurn(work: Work, started: Result<nat, string>) returns (prompt: Option<Prompt>)
      modifies this
      ensures Trim(old(draft)) == [] ==>
        prompt == None && turns == old(turns) && sent == old(sent) && replay == old(replay) && jobs == old(jobs)
        && draft == old(draft) && dirty == old(dirty)
      ensures Trim(old(draft)) != [] ==>
        && prompt == Some(PromptFor(digest, work, old(sent), if old(replay) then old(turns) else [], Trim(old(draft))))
        && draft == []
        && turns == old(turns) + [Turn(Trim(old(draft)), if started.Ok? then Waiting else Refused(started.error))]
      ensures Trim(old(draft)) != [] && started.Ok? ==>
        sent == NextSent(digest, work, old(sent)) && !replay && dirty
          && jobs == old(jobs)[started.value := |old(turns)|]
      ensures Trim(old(draft)) != [] && started.Err? ==>
        sent == old(sent) && replay == old(replay) && dirty == old(dirty) && jobs == old(jobs)
    {
      hide PromptFor, NextSent;
      var question := Trim(draft);
      if question == [] {
        return None;
      }
      var built, next := ComposePrompt(digest, work, sent, if replay then turns else [], question);
      prompt := Some(built);
      var index := |turns|;
      turns := turns + [Turn(question, Waiting)];
      draft := [];
      match started {
        case Ok(id) =>
          jobs := jobs[id := index];
          sent := next;
          replay := false;
          dirty := true;
        case Err(busy) =>
          turns := turns[index := Turn(question, Refused(busy))];
      }
    }
  }
}
