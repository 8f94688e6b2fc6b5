/** A reader who applies the chat's deltas turn by turn, and when that reader is up to date. */
module ChatProofs {
  import opened Text
  import opened DiffModel
  import opened Sanitize
  import opened Chat

  /** What a reader of the prompts knows: the body of every note and answer, by id. */
  datatype Reader = Reader(notes: map<string, string>, answers: map<string, string>, overall: Option<string>)

  const NEW_READER := Reader(map[], map[], None)

  function Apply(known: map<string, string>, entries: seq<Entry>): map<string, string> {
    if entries == [] then known
    else Apply(known, entries[..|entries| - 1])[entries[|entries| - 1].id := entries[|entries| - 1].body]
  }

  function ItemsOf(list: seq<string>): set<string> { set i | 0 <= i < |list| :: list[i] }

  /** New and updated entries are written down, removed ones struck out. */
  function Receive(reader: Reader, prompt: Prompt): Reader {
    Reader(Apply(Apply(reader.notes, prompt.created.shown), prompt.changed.shown) - ItemsOf(prompt.removed.shown),
      Apply(reader.answers, prompt.answers.shown),
      if prompt.overall.Some? then prompt.overall else reader.overall)
  }

  /** What the reviewer's entries say, clamped. */
  function Bodies(kind: Kind, entries: seq<Entry>): map<string, string> {
    if entries == [] then map[]
    else Bodies(kind, entries[..|entries| - 1])[entries[|entries| - 1].id := Clamped(kind, entries[|entries| - 1]).body]
  }

  function Marks(digest: Digest, bodies: map<string, string>): map<string, nat> {
    map id | id in bodies :: digest(bodies[id])
  }

  /** The watermark is what a reader of every dispatched turn was told, in digests. */
  predicate Synced(digest: Digest, reader: Reader, sent: Sent) {
    sent.notes == Marks(digest, reader.notes) && sent.asks == Marks(digest, reader.answers)
  }

  predicate DistinctIds(entries: seq<Entry>) {
    forall i, j :: 0 <= i < j < |entries| ==> entries[i].id != entries[j].id
  }

  /** No two different bodies of one id share a digest. */
  predicate NoCollision(digest: Digest, known: map<string, string>, bodies: map<string, string>) {
    forall id :: id in known && id in bodies && digest(known[id]) == digest(bodies[id]) ==> known[id] == bodies[id]
  }

  // ---- Selecting and marking --------------------------------------------------------------

  lemma IdsSnoc(entries: seq<Entry>, last: Entry)
    ensures Ids(entries + [last]) == Ids(entries) + {last.id}
  {
    var all := entries + [last];
    forall id | id in Ids(entries) ensures id in Ids(all) {
      var i :| 0 <= i < |entries| && entries[i].id == id;
      assert all[i].id == id;
    }
    assert all[|entries|].id == last.id;
  }

  lemma {:induction false} BodiesHold(kind: Kind, entries: seq<Entry>)
    ensures Bodies(kind, entries).Keys == Ids(entries)
  {
    if entries != [] {
      hide Clamped, Ids;
      var front, last := entries[..|entries| - 1], entries[|entries| - 1];
      BodiesHold(kind, front);
      assert entries == front + [last];
      IdsSnoc(front, last);
    } else {
      assert Ids([]) == {};
    }
  }

  lemma {:induction false} BodiesAt(kind: Kind, entries: seq<Entry>, i: nat)
    requires DistinctIds(entries) && i < |entries|
    ensures entries[i].id in Bodies(kind, entries)
      && Bodies(kind, entries)[entries[i].id] == Clamped(kind, entries[i]).body
  {
    hide Clamped;
    if i < |entries| - 1 { BodiesAt(kind, entries[..|entries| - 1], i); }
  }

  lemma {:induction false} MarkAllIs(kind: Kind, digest: Digest, seen: map<string, nat>, entries: seq<Entry>)
    ensures MarkAll(kind, digest, seen, entries) == seen + Marks(digest, Bodies(kind, entries))
  {
    if entries == [] {
      assert Marks(digest, map[]) == map[];
      assert seen + map[] == seen;
    } else {
      hide Marks;
      var front, last := entries[..|entries| - 1], Clamped(kind, entries[|entries| - 1]);
      MarkAllIs(kind, digest, seen, front);
      MarksPut(digest, Bodies(kind, front), last.id, last.body);
      PlusPut(seen, Marks(digest, Bodies(kind, front)), last.id, digest(last.body));
    }
  }

  lemma PlusPut(m: map<string, nat>, n: map<string, nat>, key: string, value: nat)
    ensures (m + n)[key := value] == m + n[key := value]
  {
  }

  lemma MarksPut(digest: Digest, bodies: map<string, string>, id: string, body: string)
    ensures Marks(digest, bodies[id := body]) == Marks(digest, bodies)[id := digest(body)]
  {
  }

  /** The entries a status selects are the ones whose id has it, each once, with their clamped bodies. */
  lemma {:induction false} SelectIs(kind: Kind, digest: Digest, seen: map<string, nat>, entries: seq<Entry>,
                                    wanted: set<Status>, bodies: map<string, string>)
    requires DistinctIds(entries)
    requires forall i :: 0 <= i < |entries| ==>
      entries[i].id in bodies && bodies[entries[i].id] == Clamped(kind, entries[i]).body
    ensures var picked := Select(kind, digest, seen, entries, wanted);
      && DistinctIds(picked)
      && (forall i :: 0 <= i < |picked| ==> picked[i].id in Ids(entries) && bodies[picked[i].id] == picked[i].body)
      && (forall id :: id in Ids(picked) <==> id in Ids(entries) && StatusOf(digest, seen, id, bodies[id]) in wanted)
  {
    if entries != [] {
      var front, last := entries[..|entries| - 1], Clamped(kind, entries[|entries| - 1]);
      SelectIs(kind, digest, seen, front, wanted, bodies);
      hide Clamped, StatusOf;
      SelectStep(digest, seen, wanted, bodies, front, entries, Select(kind, digest, seen, front, wanted), last);
    }
  }

  lemma SelectStep(digest: Digest, seen: map<string, nat>, wanted: set<Status>, bodies: map<string, string>,
                   front: seq<Entry>, entries: seq<Entry>, picked: seq<Entry>, last: Entry)
    requires entries != [] && front == entries[..|entries| - 1] && last.id == entries[|entries| - 1].id
    requires DistinctIds(entries) && DistinctIds(picked) && last.id in bodies && last.body == bodies[last.id]
    requires forall i :: 0 <= i < |front| ==> front[i].id in bodies
    requires forall i :: 0 <= i < |picked| ==> picked[i].id in Ids(front) && bodies[picked[i].id] == picked[i].body
    requires forall id :: id in Ids(picked) <==> id in Ids(front) && StatusOf(digest, seen, id, bodies[id]) in wanted
    ensures var next := picked + (if StatusOf(digest, seen, last.id, last.body) in wanted then [last] else []);
      && DistinctIds(next)
      && (forall i :: 0 <= i < |next| ==> next[i].id in Ids(entries) && bodies[next[i].id] == next[i].body)
      && (forall id :: id in Ids(next) <==> id in Ids(entries) && StatusOf(digest, seen, id, bodies[id]) in wanted)
  {
    hide StatusOf;
    assert entries == front + [entries[|entries| - 1]];
    IdsSnoc(front, entries[|entries| - 1]);
    assert last.id !in Ids(front);
    IdsSnoc(picked, last);
    assert picked + [] == picked;
  }

  // ---- Applying a delta -------------------------------------------------------------------

  lemma {:induction false} ApplyIs(known: map<string, string>, entries: seq<Entry>, bodies: map<string, string>)
    requires forall i :: 0 <= i < |entries| ==> entries[i].id in bodies && bodies[entries[i].id] == entries[i].body
    ensures Apply(known, entries).Keys == known.Keys + Ids(entries)
    ensures forall id :: id in Apply(known, entries) ==>
      Apply(known, entries)[id] == if id in Ids(entries) then bodies[id] else known[id]
  {
    if entries != [] {
      var front, last := entries[..|entries| - 1], entries[|entries| - 1];
      ApplyIs(known, front, bodies);
      assert entries == front + [last];
      IdsSnoc(front, last);
    }
  }

  /** What Cut leaves out is exactly what it does not show. */
  lemma CutShows(list: seq<Entry>)
    requires DistinctIds(list)
    ensures Ids(Cut(list).shown) <= Ids(list)
    ensures |list| <= MAX_ENTRIES ==> Cut(list).shown == list
    ensures |list| > MAX_ENTRIES ==> list[MAX_ENTRIES].id in Ids(list) && list[MAX_ENTRIES].id !in Ids(Cut(list).shown)
  {
    var shown := Cut(list).shown;
    forall id | id in Ids(shown) ensures id in Ids(list) {
      var i :| 0 <= i < |shown| && shown[i].id == id;
      assert list[i].id == id;
    }
  }

  /** Ids in order are the ids, each once. */
  lemma {:induction false} InOrderIs(ids: set<string>)
    ensures |InOrder(ids)| == |ids|
    ensures forall id :: id in InOrder(ids) <==> id in ids
    ensures forall i, j :: 0 <= i < j < |InOrder(ids)| ==>
      Precedes(InOrder(ids)[i], InOrder(ids)[j]) && InOrder(ids)[i] != InOrder(ids)[j]
    decreases |ids|
  {
    hide InOrder, Precedes;
    if ids == {} {
      NoneInOrder();
    } else {
      var first := FirstExists(ids);
      OnlyFirst(first, ids);
      InOrderIs(ids - {first});
      PutFirst(first, ids, InOrder(ids - {first}));
    }
  }

  lemma PutFirst(first: string, ids: set<string>, rest: seq<string>)
    requires IsFirst(first, ids) && |rest| == |ids - {first}|
    requires forall id :: id in rest <==> id in ids - {first}
    requires forall i, j :: 0 <= i < j < |rest| ==> Precedes(rest[i], rest[j]) && rest[i] != rest[j]
    ensures var list := [first] + rest;
      && |list| == |ids|
      && (forall id :: id in list <==> id in ids)
      && (forall i, j :: 0 <= i < j < |list| ==> Precedes(list[i], list[j]) && list[i] != list[j])
  {
    hide Precedes;
    var list := [first] + rest;
    forall i, j | 0 <= i < j < |list| ensures Precedes(list[i], list[j]) && list[i] != list[j] {
      if i == 0 { assert rest[j - 1] in ids - {first}; }
      else { assert list[i] == rest[i - 1] && list[j] == rest[j - 1]; }
    }
  }

  lemma CutRemoves(ids: set<string>)
    ensures ItemsOf(Cut(InOrder(ids)).shown) <= ids
    ensures |ids| <= MAX_ENTRIES ==> ItemsOf(Cut(InOrder(ids)).shown) == ids
    ensures |InOrder(ids)| == |ids|
    ensures |ids| > MAX_ENTRIES ==> InOrder(ids)[MAX_ENTRIES] in ids - ItemsOf(Cut(InOrder(ids)).shown)
  {
    hide InOrder, Precedes;
    var list := InOrder(ids);
    InOrderIs(ids);
    var shown := Cut(list).shown;
    assert forall i :: 0 <= i < |shown| ==> shown[i] == list[i];
    if |ids| <= MAX_ENTRIES {
      assert shown == list;
      forall id | id in ids ensures id in ItemsOf(shown) { assert id in list; }
    } else {
      assert list[MAX_ENTRIES] in list;
    }
  }

  /** The sections a turn can overflow. */
  ghost predicate NotesFit(digest: Digest, work: Work, sent: Sent) {
    && |Select(Notes, digest, sent.notes, work.notes, {Unseen})| <= MAX_ENTRIES
    && |Select(Notes, digest, sent.notes, work.notes, {Changed})| <= MAX_ENTRIES
    && |Gone(sent.notes, work.notes)| <= MAX_ENTRIES
  }

  predicate AnswersFit(digest: Digest, work: Work, sent: Sent) {
    |Select(Asks, digest, sent.asks, work.asks, {Unseen, Changed})| <= MAX_ENTRIES
  }

  /** Everything about one turn's notes, by id: what is known, what is selected and what is shown. */
  ghost predicate NoteDelta(digest: Digest, known: map<string, string>, bodies: map<string, string>,
                            created: seq<Entry>, changed: seq<Entry>, gone: set<string>) {
    && DistinctIds(created) && DistinctIds(changed)
    && (forall i :: 0 <= i < |created| ==> created[i].id in bodies && bodies[created[i].id] == created[i].body)
    && (forall i :: 0 <= i < |changed| ==> changed[i].id in bodies && bodies[changed[i].id] == changed[i].body)
    && (forall id :: id in Ids(created) <==> id in bodies && id !in known)
    && (forall id :: id in Ids(changed) <==> id in bodies && id in known && digest(known[id]) != digest(bodies[id]))
    && (forall id :: id in gone <==> id in known && id !in bodies)
  }

  lemma DeltaOf(digest: Digest, reader: Reader, sent: Sent, work: Work)
    requires Synced(digest, reader, sent) && DistinctIds(work.notes)
    ensures NoteDelta(digest, reader.notes, Bodies(Notes, work.notes),
      Select(Notes, digest, sent.notes, work.notes, {Unseen}), Select(Notes, digest, sent.notes, work.notes, {Changed}),
      Gone(sent.notes, work.notes))
  {
    hide Select, Bodies, Clamped, Ids, DistinctIds;
    var bodies := Bodies(Notes, work.notes);
    BodiesHold(Notes, work.notes);
    forall i | 0 <= i < |work.notes|
      ensures work.notes[i].id in bodies && bodies[work.notes[i].id] == Clamped(Notes, work.notes[i]).body
    {
      BodiesAt(Notes, work.notes, i);
    }
    SelectIs(Notes, digest, sent.notes, work.notes, {Unseen}, bodies);
    SelectIs(Notes, digest, sent.notes, work.notes, {Changed}, bodies);
  }

  function Received(known: map<string, string>, created: seq<Entry>, changed: seq<Entry>,
                    removed: seq<string>): map<string, string> {
    Apply(Apply(known, created), changed) - ItemsOf(removed)
  }

  lemma ReceivedIs(digest: Digest, known: map<string, string>, bodies: map<string, string>,
                   created: seq<Entry>, changed: seq<Entry>, gone: set<string>)
    requires NoteDelta(digest, known, bodies, created, changed, gone)
    ensures var m := Received(known, Cut(created).shown, Cut(changed).shown, Cut(InOrder(gone)).shown);
      && (forall id :: id in m <==>
           (id in known || id in Ids(Cut(created).shown)) && id !in ItemsOf(Cut(InOrder(gone)).shown))
      && (forall id :: id in m ==>
           m[id] == if id in Ids(Cut(created).shown) || id in Ids(Cut(changed).shown) then bodies[id] else known[id])
  {
    hide InOrder, Apply;
    CutShows(created);
    CutShows(changed);
    CutRemoves(gone);
    ApplyIs(known, Cut(created).shown, bodies);
    ApplyIs(Apply(known, Cut(created).shown), Cut(changed).shown, bodies);
  }

  lemma DeltaSyncsIff(digest: Digest, known: map<string, string>, bodies: map<string, string>,
                      created: seq<Entry>, changed: seq<Entry>, gone: set<string>)
    requires NoteDelta(digest, known, bodies, created, changed, gone) && NoCollision(digest, known, bodies)
    ensures Received(known, Cut(created).shown, Cut(changed).shown, Cut(InOrder(gone)).shown) == bodies
      <==> |created| <= MAX_ENTRIES && |changed| <= MAX_ENTRIES && |gone| <= MAX_ENTRIES
  {
    hide InOrder, Apply, Received, Cut, Ids;
    var m := Received(known, Cut(created).shown, Cut(changed).shown, Cut(InOrder(gone)).shown);
    ReceivedIs(digest, known, bodies, created, changed, gone);
    CutShows(created);
    CutShows(changed);
    CutRemoves(gone);
    if |created| > MAX_ENTRIES {
      assert created[MAX_ENTRIES].id in bodies && created[MAX_ENTRIES].id !in m;
    } else if |changed| > MAX_ENTRIES {
      var id := changed[MAX_ENTRIES].id;
      assert id in bodies && id in m && m[id] == known[id] != bodies[id];
    } else if |gone| > MAX_ENTRIES {
      assert InOrder(gone)[MAX_ENTRIES] in m;
    } else {
      assert m.Keys == bodies.Keys;
    }
  }

  lemma ReceiveNotes(digest: Digest, reader: Reader, sent: Sent, work: Work, replay: seq<Turn>, question: string)
    ensures Receive(reader, PromptFor(digest, work, sent, replay, question)).notes == Received(reader.notes,
      Cut(Select(Notes, digest, sent.notes, work.notes, {Unseen})).shown,
      Cut(Select(Notes, digest, sent.notes, work.notes, {Changed})).shown,
      Cut(InOrder(Gone(sent.notes, work.notes))).shown)
  {
    hide Select, InOrder, Apply, Replayed, Overall, Cut, Gone;
  }

  lemma NextNotes(digest: Digest, sent: Sent, work: Work)
    ensures NextSent(digest, work, sent).notes == Marks(digest, Bodies(Notes, work.notes))
  {
    hide Bodies, MarkAll, Overall, Ids;
    MarkAllIs(Notes, digest, sent.notes, work.notes);
    BodiesHold(Notes, work.notes);
  }

  /**
   * A dispatched turn leaves the reader with exactly the reviewer's clamped notes if and only if none of
   * its note sections was cut. The watermark, though, always claims they were all sent.
   */
  lemma NotesSyncIff(digest: Digest, reader: Reader, sent: Sent, work: Work, replay: seq<Turn>, question: string)
    requires Synced(digest, reader, sent) && DistinctIds(work.notes)
    requires NoCollision(digest, reader.notes, Bodies(Notes, work.notes))
    ensures Receive(reader, PromptFor(digest, work, sent, replay, question)).notes == Bodies(Notes, work.notes)
      <==> NotesFit(digest, work, sent)
    ensures NextSent(digest, work, sent).notes == Marks(digest, Bodies(Notes, work.notes))
  {
    hide Select, Bodies, InOrder, PromptFor, Receive, Received, NextSent, NoteDelta, Synced, NoCollision, Gone;
    DeltaOf(digest, reader, sent, work);
    DeltaSyncsIff(digest, reader.notes, Bodies(Notes, work.notes),
      Select(Notes, digest, sent.notes, work.notes, {Unseen}),
      Select(Notes, digest, sent.notes, work.notes, {Changed}), Gone(sent.notes, work.notes));
    ReceiveNotes(digest, reader, sent, work, replay, question);
    NextNotes(digest, sent, work);
  }

  lemma ReceiveAnswers(digest: Digest, reader: Reader, sent: Sent, work: Work, replay: seq<Turn>, question: string)
    ensures Receive(reader, PromptFor(digest, work, sent, replay, question)).answers
         == Apply(reader.answers, Cut(Select(Asks, digest, sent.asks, work.asks, {Unseen, Changed})).shown)
    ensures NextSent(digest, work, sent).asks == MarkAll(Asks, digest, sent.asks, work.asks)
  {
    hide Select, InOrder, Apply, Replayed, Overall, Cut, Gone, MarkAll;
  }

  /** One turn's answers, by id. */
  ghost predicate AnswerDelta(digest: Digest, known: map<string, string>, bodies: map<string, string>,
                              answers: seq<Entry>) {
    && DistinctIds(answers)
    && (forall i :: 0 <= i < |answers| ==> answers[i].id in bodies && bodies[answers[i].id] == answers[i].body)
    && (forall id :: id in Ids(answers) <==> id in bodies && (id !in known || digest(known[id]) != digest(bodies[id])))
  }

  lemma AnswersOf(digest: Digest, reader: Reader, sent: Sent, work: Work)
    requires Synced(digest, reader, sent) && DistinctIds(work.asks)
    ensures AnswerDelta(digest, reader.answers, Bodies(Asks, work.asks),
      Select(Asks, digest, sent.asks, work.asks, {Unseen, Changed}))
  {
    hide Select, Bodies, Clamped;
    var bodies := Bodies(Asks, work.asks);
    BodiesHold(Asks, work.asks);
    forall i | 0 <= i < |work.asks|
      ensures work.asks[i].id in bodies && bodies[work.asks[i].id] == Clamped(Asks, work.asks[i]).body
    {
      BodiesAt(Asks, work.asks, i);
    }
    SelectIs(Asks, digest, sent.asks, work.asks, {Unseen, Changed}, bodies);
  }

  lemma AnswerSyncsIff(digest: Digest, known: map<string, string>, bodies: map<string, string>, answers: seq<Entry>)
    requires AnswerDelta(digest, known, bodies, answers) && NoCollision(digest, known, bodies)
    ensures Apply(known, Cut(answers).shown) == known + bodies <==> |answers| <= MAX_ENTRIES
  {
    hide Apply, Cut, Ids;
    CutShows(answers);
    CutPicks(answers, bodies);
    ApplyIs(known, Cut(answers).shown, bodies);
    var m := Apply(known, Cut(answers).shown);
    if |answers| <= MAX_ENTRIES {
      assert m == known + bodies;
    } else {
      var id := answers[MAX_ENTRIES].id;
      assert id in bodies && (id in m ==> m[id] == known[id] != bodies[id]);
      assert id in known + bodies && (known + bodies)[id] == bodies[id];
    }
  }

  /** Answers are only ever added or replaced: the reader has all of them if and only if the section was not cut. */
  lemma AnswersSyncIff(digest: Digest, reader: Reader, sent: Sent, work: Work, replay: seq<Turn>, question: string)
    requires Synced(digest, reader, sent) && DistinctIds(work.asks)
    requires NoCollision(digest, reader.answers, Bodies(Asks, work.asks))
    ensures (Receive(reader, PromptFor(digest, work, sent, replay, question)).answers
             == reader.answers + Bodies(Asks, work.asks)) <==> AnswersFit(digest, work, sent)
    ensures NextSent(digest, work, sent).asks == Marks(digest, reader.answers + Bodies(Asks, work.asks))
  {
    hide Bodies, PromptFor, Receive, NextSent, AnswerDelta, NoCollision, Select, MarkAll, Apply;
    AnswersOf(digest, reader, sent, work);
    AnswerSyncsIff(digest, reader.answers, Bodies(Asks, work.asks),
      Select(Asks, digest, sent.asks, work.asks, {Unseen, Changed}));
    ReceiveAnswers(digest, reader, sent, work, replay, question);
    MarkAllIs(Asks, digest, sent.asks, work.asks);
  }

  lemma IdsHold(entries: seq<Entry>)
    ensures forall i :: 0 <= i < |entries| ==> entries[i].id in Ids(entries)
  {
  }

  lemma CutPicks(list: seq<Entry>, bodies: map<string, string>)
    requires forall i :: 0 <= i < |list| ==> list[i].id in bodies && bodies[list[i].id] == list[i].body
    ensures var shown := Cut(list).shown;
      forall i :: 0 <= i < |shown| ==> shown[i].id in bodies && bodies[shown[i].id] == shown[i].body
  {
  }

  // ---- Runs -------------------------------------------------------------------------------

  /** One attempt to send: what the reviewer has at that moment, and whether a worker took it. */
  datatype Attempt = Attempt(work: Work, replay: seq<Turn>, question: string, accepted: bool)

  datatype Conversation = Conversation(sent: Sent, reader: Reader)

  ghost function Step(digest: Digest, c: Conversation, a: Attempt): Conversation {
    if !a.accepted then c
    else Conversation(NextSent(digest, a.work, c.sent),
                      Receive(c.reader, PromptFor(digest, a.work, c.sent, a.replay, a.question)))
  }

  ghost function Run(digest: Digest, attempts: seq<Attempt>): Conversation {
    if attempts == [] then Conversation(NOTHING_SENT, NEW_READER)
    else Step(digest, Run(digest, attempts[..|attempts| - 1]), attempts[|attempts| - 1])
  }

  /** An attempt that cuts no section and meets no digest collision. */
  ghost predicate Clean(digest: Digest, c: Conversation, a: Attempt) {
    && DistinctIds(a.work.notes) && DistinctIds(a.work.asks)
    && NoCollision(digest, c.reader.notes, Bodies(Notes, a.work.notes))
    && NoCollision(digest, c.reader.answers, Bodies(Asks, a.work.asks))
    && NotesFit(digest, a.work, c.sent) && AnswersFit(digest, a.work, c.sent)
  }

  ghost predicate CleanRun(digest: Digest, attempts: seq<Attempt>) {
    attempts == [] || (
      && CleanRun(digest, attempts[..|attempts| - 1])
      && (attempts[|attempts| - 1].accepted ==>
           Clean(digest, Run(digest, attempts[..|attempts| - 1]), attempts[|attempts| - 1])))
  }

  /** The notes at the last accepted attempt. */
  function LastNotes(attempts: seq<Attempt>): map<string, string> {
    if attempts == [] then map[] else
      var last := attempts[|attempts| - 1];
      if last.accepted then Bodies(Notes, last.work.notes) else LastNotes(attempts[..|attempts| - 1])
  }

  /** Every answer there was at some accepted attempt, as it last was. */
  function AllAnswers(attempts: seq<Attempt>): map<string, string> {
    if attempts == [] then map[] else
      var last, before := attempts[|attempts| - 1], AllAnswers(attempts[..|attempts| - 1]);
      if last.accepted then before + Bodies(Asks, last.work.asks) else before
  }

  /** The overall comment at the last accepted attempt that had one: clearing it is never told. */
  function LastOverall(attempts: seq<Attempt>): Option<string> {
    if attempts == [] then None else
      var last := attempts[|attempts| - 1];
      if last.accepted && Overall(last.work).Some? then Overall(last.work) else LastOverall(attempts[..|attempts| - 1])
  }

  /** No two different overall comments of a run share a digest. */
  ghost predicate DistinctOveralls(digest: Digest, attempts: seq<Attempt>) {
    forall i, j :: 0 <= i < j < |attempts| && Overall(attempts[i].work).Some? && Overall(attempts[j].work).Some?
      && digest(Overall(attempts[i].work).value) == digest(Overall(attempts[j].work).value)
      ==> Overall(attempts[i].work) == Overall(attempts[j].work)
  }

  /**
   * Over any run of accepted and refused turns, replaying the accepted ones yields exactly the reviewer's
   * clamped notes at the last accepted turn and every answer given.
   */
  lemma {:induction false} RunKeepsReaderInSync(digest: Digest, attempts: seq<Attempt>)
    requires CleanRun(digest, attempts)
    ensures var c := Run(digest, attempts);
      Synced(digest, c.reader, c.sent) && c.reader.notes == LastNotes(attempts)
        && c.reader.answers == AllAnswers(attempts)
  {
    hide PromptFor, NextSent, Receive, Bodies, NotesFit, AnswersFit, DistinctIds, NoCollision;
    if attempts == [] {
      FirstSync(digest);
    } else {
      var before, last := attempts[..|attempts| - 1], attempts[|attempts| - 1];
      RunKeepsReaderInSync(digest, before);
      if last.accepted {
        var c := Run(digest, before);
        NotesSyncIff(digest, c.reader, c.sent, last.work, last.replay, last.question);
        AnswersSyncIff(digest, c.reader, c.sent, last.work, last.replay, last.question);
      }
    }
  }

  lemma FirstSync(digest: Digest)
    ensures Synced(digest, NEW_READER, NOTHING_SENT)
  {
  }

  lemma {:induction false} LastOverallIsOne(attempts: seq<Attempt>)
    ensures LastOverall(attempts).Some? ==>
      exists i :: 0 <= i < |attempts| && Overall(attempts[i].work) == LastOverall(attempts)
  {
    if attempts != [] {
      hide Overall;
      var before := attempts[..|attempts| - 1];
      LastOverallIsOne(before);
      if LastOverall(before).Some? {
        var i :| 0 <= i < |before| && Overall(before[i].work) == LastOverall(before);
        assert Overall(attempts[i].work) == LastOverall(before);
      }
    }
  }

  /** The reader's overall comment is the last one there was: clearing it in the review does not reach the reader. */
  lemma {:induction false} RunKeepsOverall(digest: Digest, attempts: seq<Attempt>)
    requires DistinctOveralls(digest, attempts)
    ensures var c := Run(digest, attempts);
      && c.reader.overall == LastOverall(attempts)
      && c.sent.overall == (if LastOverall(attempts).Some? then Some(digest(LastOverall(attempts).value)) else None)
  {
    hide Select, MarkAll, InOrder, Apply, Overall, Replayed;
    if attempts != [] {
      var before, last := attempts[..|attempts| - 1], attempts[|attempts| - 1];
      RunKeepsOverall(digest, before);
      LastOverallIsOne(before);
      if last.accepted && Overall(last.work).Some? && LastOverall(before).Some? {
        var i :| 0 <= i < |before| && Overall(before[i].work) == LastOverall(before);
        assert attempts[i] == before[i];
      }
    }
  }

  /** Once accepted, the same notes are never sent again, not even the part that was cut. */
  lemma NothingIsSentTwice(digest: Digest, sent: Sent, work: Work, replay: seq<Turn>, question: string)
    requires DistinctIds(work.notes)
    ensures var again := PromptFor(digest, work, NextSent(digest, work, sent), replay, question);
      && !again.header
      && again.created == Section([], 0) && again.changed == Section([], 0) && again.removed == Section([], 0)
      && again.overall == None
  {
    hide Select, Bodies, InOrder, MarkAll, Overall, Replayed, Clamped, NoteDelta, Gone;
    var next, bodies := NextSent(digest, work, sent), Bodies(Notes, work.notes);
    NextNotes(digest, sent, work);
    var told := Reader(bodies, map[], None);
    var marked := Sent(true, next.notes, map[], None);
    DeltaOf(digest, told, marked, work);
    NoDelta(digest, bodies, Select(Notes, digest, next.notes, work.notes, {Unseen}),
      Select(Notes, digest, next.notes, work.notes, {Changed}), Gone(next.notes, work.notes));
  }

  lemma NoDelta(digest: Digest, bodies: map<string, string>, created: seq<Entry>, changed: seq<Entry>,
                gone: set<string>)
    requires NoteDelta(digest, bodies, bodies, created, changed, gone)
    ensures created == [] && changed == [] && Cut(InOrder(gone)) == Section([], 0)
  {
    IdsHold(created);
    IdsHold(changed);
    assert created != [] ==> created[0].id in Ids(created);
    assert changed != [] ==> changed[0].id in Ids(changed);
    assert gone == {};
  }

  // ---- Replay -----------------------------------------------------------------------------

  function Length(lines: seq<string>): nat {
    if lines == [] then 0 else Length(lines[..|lines| - 1]) + |lines[|lines| - 1]|
  }

  /** The answered turns of a thread, as they are replayed. */
  function Answered(turns: seq<Turn>): seq<string> {
    if turns == [] then [] else
      Answered(turns[..|turns| - 1])
      + (if turns[|turns| - 1].state.Replied? then [ReplayEntry(turns[|turns| - 1])] else [])
  }

  /**
   * What is replayed is the answered part of the longest tail of the thread that keeps within the turn and
   * character limits, oldest first.
   */
  lemma {:induction false} ReplayIsLongestTail(replay: seq<Turn>, turns: nat, budget: nat) returns (start: nat)
    ensures start <= |replay| && |replay| - start <= turns
    ensures Replayed(replay, turns, budget) == Answered(replay[start..])
    ensures Length(Answered(replay[start..])) <= budget
    ensures start == 0 || |replay| - start == turns
      || (replay[start - 1].state.Replied?
           && |ReplayEntry(replay[start - 1])| + Length(Answered(replay[start..])) > budget)
    decreases turns
  {
    hide ReplayEntry;
    start := |replay|;
    if turns > 0 && replay != [] {
      var front, last := replay[..|replay| - 1], replay[|replay| - 1];
      if !last.state.Replied? || |ReplayEntry(last)| <= budget {
        hide Length, Answered;
        start := ReplayIsLongestTail(front, turns - 1, if last.state.Replied? then budget - |ReplayEntry(last)|
          else budget);
        TailGrows(replay, start);
        assert start > 0 ==> front[start - 1] == replay[start - 1];
      }
    }
  }

  lemma TailGrows(replay: seq<Turn>, start: nat)
    requires start < |replay|
    ensures var front, last := replay[..|replay| - 1], replay[|replay| - 1];
      && Answered(replay[start..]) == Answered(front[start..])
           + (if last.state.Replied? then [ReplayEntry(last)] else [])
      && Length(Answered(replay[start..]))
           == Length(Answered(front[start..])) + (if last.state.Replied? then |ReplayEntry(last)| else 0)
  {
    hide ReplayEntry;
    var front, last := replay[..|replay| - 1], replay[|replay| - 1];
    assert replay[start..][..|replay[start..]| - 1] == front[start..];
    var answered := Answered(front[start..]);
    assert answered + [] == answered;
    if last.state.Replied? {
      assert (answered + [ReplayEntry(last)])[..|answered|] == answered;
    }
  }

  // ---- What the text says -----------------------------------------------------------------

  function Decimal(n: nat): string {
    if n < 10 then [('0' as int + n) as char] else Decimal(n / 10) + [('0' as int + n % 10) as char]
  }

  function Concat(lines: seq<string>): string {
    if lines == [] then "" else Concat(lines[..|lines| - 1]) + lines[|lines| - 1] + "\n"
  }

  function SectionText(title: string, lines: seq<string>, dropped: nat): string {
    if lines == [] then ""
    else title + "\n" + Concat(lines) + (if dropped > 0 then "\U{2026} " + Decimal(dropped) + " older not shown\n"
      else "") + "\n"
  }

  /** A note is told by its anchor and body, an answer by its question: neither by its id. */
  function EntryLine(kind: Kind, e: Entry): string {
    if kind == Notes then "- " + e.caption + ": " + e.body else "- asked: " + e.caption + "\n  answered: " + e.body
  }

  function EntryLines(kind: Kind, entries: seq<Entry>): (lines: seq<string>)
    ensures |lines| == |entries|
  {
    seq(|entries|, i requires 0 <= i < |entries| => EntryLine(kind, entries[i]))
  }

  /** A removed note is told by its id. */
  function IdLines(ids: seq<string>): (lines: seq<string>)
    ensures |lines| == |ids|
  {
    seq(|ids|, i requires 0 <= i < |ids| => "- " + ids[i])
  }

  /** The prompt as the model reads it; `header` is the standing facts about the review. */
  function PromptText(header: string, p: Prompt): string {
    (if p.header then header else "")
    + SectionText("PREVIOUS CONVERSATION", p.replay, 0)
    + SectionText("NEW REVIEW NOTES", EntryLines(Notes, p.created.shown), p.created.dropped)
    + SectionText("UPDATED REVIEW NOTES", EntryLines(Notes, p.changed.shown), p.changed.dropped)
    + SectionText("REMOVED REVIEW NOTES", IdLines(p.removed.shown), p.removed.dropped)
    + SectionText("NEW AI ANSWERS", EntryLines(Asks, p.answers.shown), p.answers.dropped)
    + (if p.overall.Some? then "OVERALL COMMENT\n" + p.overall.value + "\n\n" else "")
    + "QUESTION\n" + p.question + "\n"
  }

  /** Two notes are written; then the first of them is deleted. */
  function TwoNotes(first: Entry, second: Entry): Work { Work([first, second], [], None) }

  function OneNote(note: Entry): Work { Work([note], [], None) }

  lemma SelectTwo(digest: Digest, seen: map<string, nat>, a: Entry, b: Entry, wanted: set<Status>)
    ensures var x, y := Clamped(Notes, a), Clamped(Notes, b);
      Select(Notes, digest, seen, [a, b], wanted) ==
        (if StatusOf(digest, seen, x.id, x.body) in wanted then [x] else [])
        + (if StatusOf(digest, seen, y.id, y.body) in wanted then [y] else [])
    ensures Select(Notes, digest, seen, [a], wanted) ==
      (if StatusOf(digest, seen, a.id, Clamped(Notes, a).body) in wanted then [Clamped(Notes, a)] else [])
    ensures MarkAll(Notes, digest, seen, [a, b])
         == seen[a.id := digest(Clamped(Notes, a).body)][b.id := digest(Clamped(Notes, b).body)]
  {
    hide Clamp;
    assert [a, b][..1] == [a] && [a][..0] == [];
    assert Select(Notes, digest, seen, [], wanted) == [];
    assert MarkAll(Notes, digest, seen, [a]) == seen[a.id := digest(Clamped(Notes, a).body)];
  }

  /** What the second turn tells after a note was deleted: its id alone. */
  lemma DeletionTells(digest: Digest, gone: Entry, kept: Entry, first: Entry, second: Entry, replay: seq<Turn>,
                      question: string)
    requires gone.id != kept.id && ((first == gone && second == kept) || (first == kept && second == gone))
    ensures var p := PromptFor(digest, OneNote(kept), NextSent(digest, TwoNotes(first, second), NOTHING_SENT), replay,
      question);
      && p == Prompt(false, Replayed(replay, MAX_REPLAY_TURNS, MAX_REPLAY_CHARS), Section([], 0), Section([], 0),
                     Section([gone.id], 0), Section([], 0), None, Trim(Sanitize.Sanitized(question, false)))
  {
    hide Clamp, Replayed, Sanitize.Sanitized, Trim;
    hide Select, MarkAll, InOrder, NextSent, Clamped;
    var sent := NextSent(digest, TwoNotes(first, second), NOTHING_SENT);
    FirstMarks(digest, first, second);
    SelectTwo(digest, sent.notes, kept, kept, {Unseen});
    SelectTwo(digest, sent.notes, kept, kept, {Changed});
    OneId(kept);
    assert Gone(sent.notes, [kept]) == {gone.id};
    OneInOrder(gone.id);
    NoEntries(digest, sent.asks);
  }

  lemma OneId(e: Entry)
    ensures Ids([e]) == {e.id}
  {
    assert [e][0] == e;
  }

  lemma OneInOrder(id: string)
    ensures InOrder({id}) == [id]
  {
    hide InOrder;
    assert IsFirst(id, {id});
    OnlyFirst(id, {id});
    assert {id} - {id} == {};
    NoneInOrder();
  }

  lemma NoEntries(digest: Digest, seen: map<string, nat>)
    ensures Select(Asks, digest, seen, [], {Unseen, Changed}) == []
  {
  }

  lemma FirstMarks(digest: Digest, first: Entry, second: Entry)
    requires first.id != second.id
    ensures NextSent(digest, TwoNotes(first, second), NOTHING_SENT).notes
         == map[first.id := digest(Clamped(Notes, first).body), second.id := digest(Clamped(Notes, second).body)]
    ensures NextSent(digest, TwoNotes(first, second), NOTHING_SENT).header
    ensures NextSent(digest, TwoNotes(first, second), NOTHING_SENT).asks == map[]
    ensures NextSent(digest, TwoNotes(first, second), NOTHING_SENT).overall == None
  {
    hide Clamp;
    SelectTwo(digest, map[], first, second, {});
    assert Gone(map[], [first, second]) == {};
  }

  lemma BothTold(digest: Digest, a: Entry, b: Entry, replay: seq<Turn>, question: string)
    requires a.id != b.id
    ensures var p := PromptFor(digest, TwoNotes(a, b), NOTHING_SENT, replay, question);
      && p == Prompt(true, Replayed(replay, MAX_REPLAY_TURNS, MAX_REPLAY_CHARS),
                     Section([Clamped(Notes, a), Clamped(Notes, b)], 0), Section([], 0),
                     Section([], 0), Section([], 0), None, Trim(Sanitize.Sanitized(question, false)))
  {
    hide Clamp, Replayed, Sanitize.Sanitized, Trim;
    SelectTwo(digest, map[], a, b, {Unseen});
    SelectTwo(digest, map[], a, b, {Changed});
    assert Gone(map[], [a, b]) == {};
    NoneInOrder();
  }

  /**
   * The text alone does not keep a reader in sync. Of two reviewers who write the same two notes under swapped ids,
   * each then deleting the note with id `gone`, every turn reads the same, and different notes are left.
   */
  lemma SameTextDifferentNotes(digest: Digest, header: string, gone: string, kept: string, captions: (string, string),
                               bodies: (string, string), replay: seq<Turn>, questions: (string, string))
    requires gone != kept
    ensures var a, b := TwoNotes(Entry(gone, captions.0, bodies.0), Entry(kept, captions.1, bodies.1)),
                        TwoNotes(Entry(kept, captions.0, bodies.0), Entry(gone, captions.1, bodies.1));
      var a', b' := OneNote(Entry(kept, captions.1, bodies.1)), OneNote(Entry(kept, captions.0, bodies.0));
      && PromptText(header, PromptFor(digest, a, NOTHING_SENT, replay, questions.0))
           == PromptText(header, PromptFor(digest, b, NOTHING_SENT, replay, questions.0))
      && PromptText(header, PromptFor(digest, a', NextSent(digest, a, NOTHING_SENT), replay, questions.1))
           == PromptText(header, PromptFor(digest, b', NextSent(digest, b, NOTHING_SENT), replay, questions.1))
      && (Clamp(bodies.0, MAX_NOTE_CHARS) != Clamp(bodies.1, MAX_NOTE_CHARS) ==>
            Bodies(Notes, a'.notes) != Bodies(Notes, b'.notes))
  {
    hide PromptFor, NextSent, Clamp, Replayed, Sanitize.Sanitized, Trim, SectionText;
    var a, b := Entry(gone, captions.0, bodies.0), Entry(kept, captions.1, bodies.1);
    var c, d := Entry(kept, captions.0, bodies.0), Entry(gone, captions.1, bodies.1);
    BothTold(digest, a, b, replay, questions.0);
    BothTold(digest, c, d, replay, questions.0);
    assert EntryLines(Notes, [Clamped(Notes, a), Clamped(Notes, b)])
      == EntryLines(Notes, [Clamped(Notes, c), Clamped(Notes, d)]);
    DeletionTells(digest, a, b, a, b, replay, questions.1);
    DeletionTells(digest, d, c, c, d, replay, questions.1);
    OneBody(b);
    OneBody(c);
    assert Bodies(Notes, [b])[kept] == Clamp(bodies.1, MAX_NOTE_CHARS)
      && Bodies(Notes, [c])[kept] == Clamp(bodies.0, MAX_NOTE_CHARS);
  }

  lemma OneBody(e: Entry)
    ensures Bodies(Notes, [e]) == map[e.id := Clamp(e.body, MAX_NOTE_CHARS)]
  {
    hide Clamp;
    assert [e][..0] == [];
  }

  // ---- When the text is enough ------------------------------------------------------------

  function ClampedNotes(notes: seq<Entry>): (lines: seq<Entry>)
    ensures |lines| == |notes|
  {
    seq(|notes|, i requires 0 <= i < |notes| => Clamped(Notes, notes[i]))
  }

  lemma {:induction false} ToldNotesAreQuiet(digest: Digest, notes: seq<Entry>, n: nat, wanted: set<Status>)
    requires DistinctIds(notes) && n <= |notes| && Unchanged !in wanted
    ensures Select(Notes, digest, Marks(digest, Bodies(Notes, notes)), notes[..n], wanted) == []
  {
    if n > 0 {
      hide Clamped;
      ToldNotesAreQuiet(digest, notes, n - 1, wanted);
      assert notes[..n][..n - 1] == notes[..n - 1];
      BodiesAt(Notes, notes, n - 1);
      KeepsId(notes[n - 1]);
    }
  }

  lemma KeepsId(e: Entry)
    ensures Clamped(Notes, e).id == e.id
  {
    hide Clamp;
  }

  lemma {:induction false} AddedNotesAreSelected(digest: Digest, before: seq<Entry>, added: seq<Entry>)
    requires DistinctIds(before + added)
    ensures var seen := Marks(digest, Bodies(Notes, before));
      && Select(Notes, digest, seen, before + added, {Unseen}) == ClampedNotes(added)
      && Select(Notes, digest, seen, before + added, {Changed}) == []
  {
    hide Clamped, Bodies, Marks;
    if added == [] {
      assert before + added == before && before[..|before|] == before;
      assert DistinctIds(before);
      ToldNotesAreQuiet(digest, before, |before|, {Unseen});
      ToldNotesAreQuiet(digest, before, |before|, {Changed});
    } else {
      var front, last := added[..|added| - 1], added[|added| - 1];
      var all := before + added;
      assert all[..|all| - 1] == before + front && all[|all| - 1] == last;
      AddedNotesAreSelected(digest, before, front);
      NotYetTold(digest, before, all, last);
      assert ClampedNotes(added) == ClampedNotes(front) + [Clamped(Notes, last)];
    }
  }

  lemma NotYetTold(digest: Digest, before: seq<Entry>, all: seq<Entry>, last: Entry)
    requires |before| < |all| && before == all[..|before|] && DistinctIds(all) && last == all[|all| - 1]
    ensures Clamped(Notes, last).id !in Marks(digest, Bodies(Notes, before))
  {
    hide Clamped, Bodies;
    KeepsId(last);
    BodiesHold(Notes, before);
    forall i | 0 <= i < |before| ensures before[i].id != last.id {
      assert all[i].id != all[|all| - 1].id;
    }
  }

  /** A turn after which notes were only added tells exactly those, in order, up to the limit, and nothing else. */
  lemma AddedNotesAreTold(digest: Digest, sent: Sent, before: Work, added: seq<Entry>, after: Work, replay: seq<Turn>,
                          question: string)
    requires after.notes == before.notes + added && DistinctIds(after.notes)
    ensures var p := PromptFor(digest, after, NextSent(digest, before, sent), replay, question);
      p.created == Cut(ClampedNotes(added)) && p.changed == Section([], 0) && p.removed == Section([], 0)
  {
    hide Select, Bodies, InOrder, NextSent, Replayed, Overall, Sanitize.Sanitized, Trim, Marks;
    var seen := NextSent(digest, before, sent).notes;
    NextNotes(digest, sent, before);
    AddedNotesAreSelected(digest, before.notes, added);
    assert Gone(seen, after.notes) == {} by {
      BodiesHold(Notes, before.notes);
      MarksKeys(digest, Bodies(Notes, before.notes));
      MoreIds(before.notes, added);
    }
    NoneInOrder();
  }

  lemma MarksKeys(digest: Digest, bodies: map<string, string>)
    ensures Marks(digest, bodies).Keys == bodies.Keys
  {
  }

  lemma MoreIds(a: seq<Entry>, b: seq<Entry>)
    ensures Ids(a) <= Ids(a + b)
  {
    forall id | id in Ids(a) ensures id in Ids(a + b) {
      var i :| 0 <= i < |a| && a[i].id == id;
      assert (a + b)[i].id == id;
    }
  }

  /** From turn to turn notes are only added, at the end, and no more of them than one turn tells. */
  ghost predicate Growing(works: seq<Work>) {
    works == [] || (
      var before := if |works| == 1 then [] else works[|works| - 2].notes;
      var last := works[|works| - 1].notes;
      && Growing(works[..|works| - 1]) && DistinctIds(last)
      && |before| <= |last| <= |before| + MAX_ENTRIES && last[..|before|] == before)
  }

  ghost function SentAfter(digest: Digest, works: seq<Work>): Sent {
    if works == [] then NOTHING_SENT
    else NextSent(digest, works[|works| - 1], SentAfter(digest, works[..|works| - 1]))
  }

  /** The lines about notes that a run of turns tells, one after the other. */
  ghost function Told(digest: Digest, works: seq<Work>): seq<string> {
    if works == [] then [] else
      var front := works[..|works| - 1];
      var p := PromptFor(digest, works[|works| - 1], SentAfter(digest, front), [], "");
      Told(digest, front) + EntryLines(Notes, p.created.shown)
        + EntryLines(Notes, p.changed.shown) + IdLines(p.removed.shown)
  }

  /** Over a run of turns that only adds notes, the lines told are the reviewer's notes: the text alone is enough. */
  lemma {:induction false} GrowingNotesAreTold(digest: Digest, works: seq<Work>)
    requires Growing(works) && works != []
    ensures Told(digest, works) == EntryLines(Notes, ClampedNotes(works[|works| - 1].notes))
  {
    hide PromptFor, NextSent, Clamped, EntryLine;
    var front, last := works[..|works| - 1], works[|works| - 1];
    var before := if front == [] then Work([], [], None) else front[|front| - 1];
    var added := last.notes[|before.notes|..];
    assert last.notes == before.notes + added;
    assert ClampedNotes(last.notes) == ClampedNotes(before.notes) + ClampedNotes(added);
    assert EntryLines(Notes, ClampedNotes(last.notes))
        == EntryLines(Notes, ClampedNotes(before.notes)) + EntryLines(Notes, ClampedNotes(added));
    if front == [] {
      FirstNotesAreTold(digest, last);
    } else {
      GrowingNotesAreTold(digest, front);
      AddedNotesAreTold(digest, SentAfter(digest, front[..|front| - 1]), before, added, last, [], "");
    }
    assert ClampedNotes(added)[..|added|] == ClampedNotes(added);
  }

  lemma FirstNotesAreTold(digest: Digest, work: Work)
    requires DistinctIds(work.notes)
    ensures var p := PromptFor(digest, work, NOTHING_SENT, [], "");
      p.created == Cut(ClampedNotes(work.notes)) && p.changed == Section([], 0) && p.removed == Section([], 0)
  {
    hide Select, InOrder, Replayed, Overall, Sanitize.Sanitized, Trim;
    assert [] + work.notes == work.notes;
    AddedNotesAreSelected(digest, [], work.notes);
    assert Marks(digest, Bodies(Notes, [])) == map[];
    assert Gone(map[], work.notes) == {};
    NoneInOrder();
  }

  // ---- How much of a note is known --------------------------------------------------------

  lemma ClampKeeps(value: string, limit: nat)
    requires Trim(value) == value && forall i :: 0 <= i < |value| ==> Printable(value[i])
    ensures Clamp(value, limit) == if |value| <= limit then value else value[..limit] + "\U{2026} (truncated)"
  {
    UnchangedIffPrintable(value);
  }

  /** After an accepted turn the reader knows each note to its 2000th character. */
  lemma NotesAreKnown(digest: Digest, attempts: seq<Attempt>, e: Entry)
    requires CleanRun(digest, attempts) && attempts != [] && attempts[|attempts| - 1].accepted
    requires e in attempts[|attempts| - 1].work.notes
    requires Trim(e.body) == e.body && forall i :: 0 <= i < |e.body| ==> Printable(e.body[i])
    ensures var known := Run(digest, attempts).reader.notes;
      e.id in known && known[e.id] == if |e.body| <= 2000 then e.body else e.body[..2000] + "\U{2026} (truncated)"
  {
    RunKeepsReaderInSync(digest, attempts);
    var notes := attempts[|attempts| - 1].work.notes;
    assert DistinctIds(notes);
    hide CleanRun, Run, DistinctIds, Bodies, Clamp;
    var i :| 0 <= i < |notes| && notes[i] == e;
    BodiesAt(Notes, notes, i);
    ClampKeeps(e.body, 2000);
  }
}
