/** What upserts and clears keep, and what holds of the thread over every run. */
module ReasoningProofs {
  import opened JsonValues
  import opened Sorting
  import opened Messages
  import opened MessageMerge
  import opened ReasoningUpsert

  // ---- the table while entries are processed -------------------------------------------------------------

  /** How the table of an upsert relates to the table it started from. */
  ghost predicate Tracks(start: seq<Message>, entries: seq<Entry>, p: Progress) {
    && UniqueIds(p.table)
    && (!p.hasNewEntries ==> Ids(p.table) == Ids(start))
    && (forall id | !HasEntry(entries, id) :: Find(p.table, id) == Find(start, id))
    && (forall id | Find(start, id).Some? && !Flagged(Find(start, id).value) :: Find(p.table, id) == Find(start, id))
    && (forall id | Find(start, id).Some? ::
          Find(p.table, id).Some? && Find(p.table, id).value.createdAt == Find(start, id).value.createdAt)
    && (forall id | Find(p.table, id).Some? && Find(start, id).None? ::
          p.hasNewEntries && IsStreaming(Find(p.table, id).value) && Flagged(Find(p.table, id).value))
    && (forall id | HasEntry(entries, id) && (Find(start, id).None? || Flagged(Find(start, id).value)) ::
          Find(p.table, id).Some? && IsStreaming(Find(p.table, id).value) && p.hasChanges)
  }

  lemma {:induction false} HasEntryAppend(entries: seq<Entry>, entry: Entry)
    ensures forall id :: HasEntry(entries + [entry], id) <==> HasEntry(entries, id) || id == entry.reasoningId
  {
    forall id ensures HasEntry(entries + [entry], id) <==> HasEntry(entries, id) || id == entry.reasoningId {
      assert entry in entries + [entry];
    }
  }

  lemma {:induction false} TrackOne(start: seq<Message>, entries: seq<Entry>, p: Progress, entry: Entry, ctx: Context,
                                    now: Instant)
    requires Tracks(start, entries, p)
    ensures Tracks(start, entries + [entry], UpsertOne(p, entry, ctx, now))
  {
    var existing := Find(p.table, entry.reasoningId);
    HasEntryAppend(entries, entry);
    if existing.Some? && !Flagged(existing.value) {
      assert HasEntry(entries, entry.reasoningId) ==>
               !(Find(start, entry.reasoningId).None? || Flagged(Find(start, entry.reasoningId).value));
    } else {
      RebuiltStreams(entry, existing, ctx, now);
      TrackPut(start, entries, p, entry, Rebuilt(entry, existing, ctx, now));
    }
  }

  lemma {:induction false} TrackPut(start: seq<Message>, entries: seq<Entry>, p: Progress, entry: Entry, next: Message)
    requires Tracks(start, entries, p) && next.id == entry.reasoningId && IsStreaming(next) && Flagged(next)
    requires Streams(Find(p.table, next.id))
    requires Find(p.table, next.id).Some? ==> next.createdAt == Find(p.table, next.id).value.createdAt
    ensures
      Tracks(start, entries + [entry],
        Progress(Put(p.table, next), true, p.hasNewEntries || Find(p.table, next.id).None?))
  {
    HasEntryAppend(entries, entry);
    PutUnique(p.table, next);
    if Find(p.table, next.id).Some? { PutIds(p.table, next); }
    forall id ensures Find(Put(p.table, next), id) == if id == next.id then Some(next) else Find(p.table, id) {
      PutFind(p.table, next, id);
    }
  }

  lemma {:induction false} TrackAll(p: Progress, entries: seq<Entry>, ctx: Context, clock: nat -> Instant)
    requires UniqueIds(p.table) && !p.hasNewEntries
    ensures Tracks(p.table, entries, UpsertAll(p, entries, ctx, clock))
    ensures p.hasChanges ==> UpsertAll(p, entries, ctx, clock).hasChanges
    ensures !UpsertAll(p, entries, ctx, clock).hasChanges ==> UpsertAll(p, entries, ctx, clock).table == p.table
  {
    if entries != [] {
      var last := |entries| - 1;
      TrackAll(p, entries[..last], ctx, clock);
      TrackOne(p.table, entries[..last], UpsertAll(p, entries[..last], ctx, clock), entries[last], ctx, clock(last));
      assert entries[..last] + [entries[last]] == entries;
    }
  }

  // ---- dropping and replacing in place -------------------------------------------------------------------

  lemma {:induction false} DropStaleFind(messages: seq<Message>, entries: seq<Entry>, ctx: Context, id: string)
    requires UniqueIds(messages)
    ensures Find(DropStale(messages, entries, ctx), id) ==
            if Find(messages, id).Some? && Stale(entries, ctx, Find(messages, id).value) then None
              else Find(messages, id)
  {
    WhereMembers(NotStale(entries, ctx), messages);
    WhereUnique(NotStale(entries, ctx), messages);
    var left := DropStale(messages, entries, ctx);
    FindMember(messages, id);
    FindMember(left, id);
    if Find(left, id).Some? { UniqueFind(messages, Find(left, id).value); }
    if Find(messages, id).Some? && !Stale(entries, ctx, Find(messages, id).value) {
      UniqueFind(left, Find(messages, id).value);
    }
  }

  lemma {:induction false} IdsCons(m: Message, rest: seq<Message>)
    ensures Ids([m] + rest) == [m.id] + Ids(rest)
  {
  }

  /** The ids left in place are those of the table, in the table's order. */
  lemma {:induction false} InPlaceIds(prev: seq<Message>, table: seq<Message>, entries: seq<Entry>, ctx: Context)
    requires forall m | m in prev :: Find(table, m.id).Some? <==> !Stale(entries, ctx, m)
    ensures Ids(InPlace(prev, table)) == Ids(DropStale(prev, entries, ctx))
  {
    if prev != [] {
      var left := DropStale(prev[1..], entries, ctx);
      assert forall m | m in prev[1..] :: m in prev;
      InPlaceIds(prev[1..], table, entries, ctx);
      assert prev[0] in prev;
      if !Stale(entries, ctx, prev[0]) {
        FindMember(table, prev[0].id);
        IdsCons(Find(table, prev[0].id).value, InPlace(prev[1..], table));
        IdsCons(prev[0], left);
        assert DropStale(prev, entries, ctx) == [prev[0]] + left;
      } else {
        assert DropStale(prev, entries, ctx) == left;
      }
    }
  }

  lemma {:induction false} InPlaceMembers(prev: seq<Message>, table: seq<Message>)
    ensures forall m | m in InPlace(prev, table) :: Find(table, m.id) == Some(m)
    ensures UniqueIds(prev) ==> UniqueIds(InPlace(prev, table))
    ensures forall m | m in InPlace(prev, table) :: exists x | x in prev :: x.id == m.id
  {
    if prev != [] {
      InPlaceMembers(prev[1..], table);
      FindMember(table, prev[0].id);
      assert prev == [prev[0]] + prev[1..];
      assert UniqueIds(prev) ==> forall m | m in prev[1..] :: m.id != prev[0].id;
    }
  }

  lemma {:induction false} SameIdsSamePresence(a: seq<Message>, b: seq<Message>, id: string)
    requires Ids(a) == Ids(b)
    ensures Find(a, id).Some? <==> Find(b, id).Some?
  {
    assert |Ids(a)| == |Ids(b)|;
    if a != [] {
      assert Ids(a)[0] == Ids(b)[0];
      assert Ids(a[1..]) == Ids(a)[1..] && Ids(b[1..]) == Ids(b)[1..];
      SameIdsSamePresence(a[1..], b[1..], id);
    }
  }

  lemma {:induction false} SameIdsInPlace(a: seq<Message>, b: seq<Message>)
    requires UniqueIds(a) && UniqueIds(b) && Ids(a) == Ids(b) && forall m | m in a :: Find(b, m.id) == Some(m)
    ensures a == b
  {
    forall i | 0 <= i < |a| ensures a[i] == b[i] {
      assert Ids(a)[i] == Ids(b)[i] && a[i] in a;
      UniqueFind(b, b[i]);
    }
    assert |Ids(a)| == |Ids(b)|;
  }

  // ---- one upsert ---------------------------------------------------------------------------------------------

  /** The table an upsert ends with, from a list with unique ids. */
  function Table(prev: seq<Message>, entries: seq<Entry>, ctx: Context, clock: nat -> Instant): Progress {
    UpsertAll(Start(prev, entries, ctx), entries, ctx, clock)
  }

  lemma {:induction false} StartIsUnique(prev: seq<Message>, entries: seq<Entry>, ctx: Context)
    requires UniqueIds(prev)
    ensures Start(prev, entries, ctx) ==
            Progress(DropStale(prev, entries, ctx), DropStale(prev, entries, ctx) != prev, false)
    ensures UniqueIds(DropStale(prev, entries, ctx))
  {
    assert [] + prev == prev;
    PutAllFresh([], prev);
    WhereUnique(NotStale(entries, ctx), prev);
  }

  lemma {:induction false} TableTracks(prev: seq<Message>, entries: seq<Entry>, ctx: Context, clock: nat -> Instant)
    requires UniqueIds(prev)
    ensures Tracks(DropStale(prev, entries, ctx), entries, Table(prev, entries, ctx, clock))
    ensures !Table(prev, entries, ctx, clock).hasChanges ==>
              Table(prev, entries, ctx, clock).table == prev == DropStale(prev, entries, ctx)
  {
    StartIsUnique(prev, entries, ctx);
    TrackAll(Start(prev, entries, ctx), entries, ctx, clock);
  }

  /** Without new entries, replacing in place gives the table itself. */
  lemma {:induction false} InPlaceIsTable(prev: seq<Message>, entries: seq<Entry>, ctx: Context, clock: nat -> Instant)
    requires UniqueIds(prev) && !Table(prev, entries, ctx, clock).hasNewEntries
    ensures InPlace(prev, Table(prev, entries, ctx, clock).table) == Table(prev, entries, ctx, clock).table
  {
    var left, table := DropStale(prev, entries, ctx), Table(prev, entries, ctx, clock).table;
    TableTracks(prev, entries, ctx, clock);
    StartIsUnique(prev, entries, ctx);
    forall m | m in prev ensures Find(table, m.id).Some? <==> !Stale(entries, ctx, m) {
      UniqueFind(prev, m);
      DropStaleFind(prev, entries, ctx, m.id);
      SameIdsSamePresence(table, left, m.id);
    }
    InPlaceIds(prev, table, entries, ctx);
    InPlaceMembers(prev, table);
    SameIdsInPlace(InPlace(prev, table), table);
  }

  /** And it is the list a full sort would give, so that branch may skip sorting. */
  lemma {:induction false} InPlaceNeedsNoSort(prev: seq<Message>, entries: seq<Entry>, ctx: Context,
                                              clock: nat -> Instant)
    requires UniqueIds(prev) && InOrder(prev) && !Table(prev, entries, ctx, clock).hasNewEntries
    ensures InPlace(prev, Table(prev, entries, ctx, clock).table) ==
            Chronological(Table(prev, entries, ctx, clock).table)
    ensures InOrder(Table(prev, entries, ctx, clock).table)
  {
    TableTracks(prev, entries, ctx, clock);
    InPlaceIsTable(prev, entries, ctx, clock);
    StartIsUnique(prev, entries, ctx);
    WhereInOrder(NotStale(entries, ctx), prev);
    SameIdsSameTimes(DropStale(prev, entries, ctx), Table(prev, entries, ctx, clock).table);
    SortFixed(ByTime(), Table(prev, entries, ctx, clock).table);
  }

  lemma {:induction false} UpsertKeepsOrder(prev: seq<Message>, entries: seq<Entry>, ctx: Context,
                                            clock: nat -> Instant)
    requires UniqueIds(prev) && InOrder(prev)
    ensures UniqueIds(Upsert(prev, entries, ctx, clock)) && InOrder(Upsert(prev, entries, ctx, clock))
  {
    if entries != [] {
      var p := Table(prev, entries, ctx, clock);
      TableTracks(prev, entries, ctx, clock);
      if p.hasChanges && !p.hasNewEntries {
        InPlaceIsTable(prev, entries, ctx, clock);
        InPlaceNeedsNoSort(prev, entries, ctx, clock);
      } else if p.hasChanges {
        SortSorted(ByTime(), p.table);
        SortUniqueIds(p.table);
      }
    }
  }

  /** Whatever branch is taken, the result holds what the table holds. */
  lemma {:induction false} UpsertFind(prev: seq<Message>, entries: seq<Entry>, ctx: Context, clock: nat -> Instant,
                                      id: string)
    requires UniqueIds(prev) && entries != []
    ensures UniqueIds(Upsert(prev, entries, ctx, clock))
    ensures Find(Upsert(prev, entries, ctx, clock), id) == Find(Table(prev, entries, ctx, clock).table, id)
  {
    var p := Table(prev, entries, ctx, clock);
    TableTracks(prev, entries, ctx, clock);
    if p.hasChanges && !p.hasNewEntries {
      InPlaceIsTable(prev, entries, ctx, clock);
    } else if p.hasChanges {
      SortUniqueIds(p.table);
      SortFind(p.table, id);
    }
  }

  /**
   After an upsert for a run: a streaming message of that run is one the entries mention;
   every message without the flag is still there, unchanged; every entry has its message;
   nothing else appears.
   */
  lemma {:induction false} UpsertReplacesRun(prev: seq<Message>, entries: seq<Entry>, ctx: Context,
                                             clock: nat -> Instant, m: Message)
    requires UniqueIds(prev) && entries != []
    ensures
      var result := Upsert(prev, entries, ctx, clock);
      && (m in result && IsStreaming(m) && NonEmpty(ctx.runId).Some? && RunId(m) == ctx.runId ==>
         HasEntry(entries, m.id))
      && (m in prev && !Flagged(m) ==> m in result)
      && (forall e | e in entries :: Find(result, e.reasoningId).Some?)
      && (m in result && !HasEntry(entries, m.id) ==> m in prev)
  {
    var result, left := Upsert(prev, entries, ctx, clock), DropStale(prev, entries, ctx);
    TableTracks(prev, entries, ctx, clock);
    StartIsUnique(prev, entries, ctx);
    WhereMembers(NotStale(entries, ctx), prev);
    UpsertFind(prev, entries, ctx, clock, m.id);
    FindMember(result, m.id);
    FindMember(left, m.id);
    if m in result { UniqueFind(result, m); }
    if m in prev && !Flagged(m) { UniqueFind(left, m); }
    forall e | e in entries ensures Find(result, e.reasoningId).Some? {
      assert HasEntry(entries, e.reasoningId);
      UpsertFind(prev, entries, ctx, clock, e.reasoningId);
    }
  }

  /**
   An upsert takes away, of the messages its entries do not mention, exactly the streaming
   reasoning of its own run; without a run it takes nothing away.
   */
  lemma {:induction false} UpsertDropsExactly(prev: seq<Message>, entries: seq<Entry>, ctx: Context,
                                              clock: nat -> Instant, m: Message)
    requires UniqueIds(prev) && entries != [] && m in prev && forall e | e in entries :: e.reasoningId != m.id
    ensures m in Upsert(prev, entries, ctx, clock) <==>
            !(&& IsReasoning(m) && Truthy(Kwarg(m, "__streamingReasoning"))
              && ctx.runId.Some? && ctx.runId.value != "" && RunId(m) == ctx.runId)
  {
    var result := Upsert(prev, entries, ctx, clock);
    StartIsUnique(prev, entries, ctx);
    TableTracks(prev, entries, ctx, clock);
    UpsertFind(prev, entries, ctx, clock, m.id);
    DropStaleFind(prev, entries, ctx, m.id);
    UniqueFind(prev, m);
    FindMember(result, m.id);
    if m in result { UniqueFind(result, m); }
  }

  // ---- the text of a streaming message ---------------------------------------------------------------------------

  /** Text never shrinks, except that an empty chunk empties it. */
  lemma {:induction false} TextShrinksOnlyOnEmptyChunk(stored: string, chunk: string)
    ensures |StoredText(stored, chunk)| >= |stored| <==> chunk != "" || stored == ""
    ensures StoredText(stored, chunk) == chunk || StoredText(stored, chunk) == stored + chunk
    ensures stored <= chunk ==> StoredText(stored, chunk) == chunk
  {
  }

  function TextAfter(stored: string, chunks: seq<string>): string {
    if chunks == [] then stored
    else StoredText(TextAfter(stored, chunks[..|chunks| - 1]), chunks[|chunks| - 1])
  }

  /** Each chunk is a snapshot that extends the one before it. */
  predicate Snapshots(stored: string, chunks: seq<string>) {
    chunks != [] ==> stored <= chunks[0] && forall i | 0 < i < |chunks| :: chunks[i - 1] <= chunks[i]
  }

  lemma {:induction false} LastSnapshotIsStored(stored: string, chunks: seq<string>)
    requires Snapshots(stored, chunks) && chunks != []
    ensures TextAfter(stored, chunks) == chunks[|chunks| - 1]
  {
    var before := chunks[..|chunks| - 1];
    if before != [] {
      assert forall i | 0 <= i < |before| :: before[i] == chunks[i];
      LastSnapshotIsStored(stored, before);
    }
    TextShrinksOnlyOnEmptyChunk(TextAfter(stored, before), chunks[|chunks| - 1]);
  }

  lemma {:induction false} TextAfterConcat(stored: string, a: seq<string>, b: seq<string>)
    ensures TextAfter(stored, a + b) == TextAfter(TextAfter(stored, a), b)
  {
    if b == [] {
      assert a + b == a;
    } else {
      var before := b[..|b| - 1];
      assert (a + b)[..|a + b| - 1] == a + before;
      TextAfterConcat(stored, a, before);
    }
  }

  lemma {:induction false} TextNeverShrinks(stored: string, some: seq<string>, chunks: seq<string>)
    requires some <= chunks && "" !in chunks
    ensures |TextAfter(stored, some)| <= |TextAfter(stored, chunks)|
  {
    if some != chunks {
      var before := chunks[..|chunks| - 1];
      assert chunks == before + [chunks[|chunks| - 1]];
      TextNeverShrinks(stored, some, before);
      TextShrinksOnlyOnEmptyChunk(TextAfter(stored, before), chunks[|chunks| - 1]);
    }
  }

  /** The chunks of an upsert that are for one message, in order. */
  function ChunksFor(entries: seq<Entry>, id: string): seq<string> {
    if entries == [] then []
    else
      var last := entries[|entries| - 1];
      ChunksFor(entries[..|entries| - 1], id) + if last.reasoningId == id then [last.content] else []
  }

  /** The text stored for a message; a new one starts from nothing. */
  function Stored(m: Option<Message>): string { if m.Some? then TextOf(m.value) else "" }

  /** The chunks made the message, or were folded into its text. */
  predicate Folds(before: Option<Message>, chunks: seq<string>, after: Option<Message>) {
    && (after.Some? <==> before.Some? || chunks != [])
    && (after.Some? ==> Flagged(after.value) && TextOf(after.value) == TextAfter(Stored(before), chunks))
  }

  /** A streaming message, or one that is not there yet. */
  predicate Streams(m: Option<Message>) { m.Some? ==> Flagged(m.value) }

  lemma {:induction false} RebuiltFolds(entry: Entry, existing: Option<Message>, ctx: Context, now: Instant)
    requires Streams(existing)
    ensures Folds(existing, [entry.content], Some(Rebuilt(entry, existing, ctx, now)))
  {
    RebuiltStreams(entry, existing, ctx, now);
    assert [entry.content][..0] == [];
  }

  lemma {:induction false} FoldsTwice(a: Option<Message>, chunks: seq<string>, b: Option<Message>, more: seq<string>,
                                      c: Option<Message>)
    requires Folds(a, chunks, b) && Folds(b, more, c)
    ensures Folds(a, chunks + more, c)
  {
    TextAfterConcat(Stored(a), chunks, more);
  }

  lemma {:induction false} TableText(p: Progress, entries: seq<Entry>, ctx: Context, clock: nat -> Instant, id: string)
    requires Streams(Find(p.table, id))
    ensures Folds(Find(p.table, id), ChunksFor(entries, id), Find(UpsertAll(p, entries, ctx, clock).table, id))
  {
    if entries != [] {
      var before, entry, now := entries[..|entries| - 1], entries[|entries| - 1], clock(|entries| - 1);
      TableText(p, before, ctx, clock, id);
      var q := UpsertAll(p, before, ctx, clock);
      var existing := Find(q.table, entry.reasoningId);
      RebuiltStreams(entry, existing, ctx, now);
      PutFind(q.table, Rebuilt(entry, existing, ctx, now), id);
      if entry.reasoningId == id {
        RebuiltFolds(entry, existing, ctx, now);
        FoldsTwice(Find(p.table, id), ChunksFor(before, id), existing, [entry.content],
          Some(Rebuilt(entry, existing, ctx, now)));
      } else {
        assert ChunksFor(entries, id) == ChunksFor(before, id);
      }
    }
  }

  /** An upsert folds its chunks for a streaming message into the text stored before. */
  lemma {:induction false} UpsertAccumulatesText(prev: seq<Message>, entries: seq<Entry>, ctx: Context,
                                                 clock: nat -> Instant, m: Message)
    requires UniqueIds(prev) && m in prev && Flagged(m) && HasEntry(entries, m.id)
    ensures
      var current := Find(Upsert(prev, entries, ctx, clock), m.id);
      current.Some? && TextOf(current.value) == TextAfter(TextOf(m), ChunksFor(entries, m.id)) &&
      current.value.createdAt == m.createdAt
  {
    var left := DropStale(prev, entries, ctx);
    StartIsUnique(prev, entries, ctx);
    TableTracks(prev, entries, ctx, clock);
    UpsertFind(prev, entries, ctx, clock, m.id);
    UniqueFind(prev, m);
    DropStaleFind(prev, entries, ctx, m.id);
    TableText(Start(prev, entries, ctx), entries, ctx, clock, m.id);
  }

  /** One empty chunk is enough to lose whatever was stored. */
  lemma {:induction false} EmptyChunkEmptiesText(prev: seq<Message>, m: Message, entry: Entry, ctx: Context,
                                                 clock: nat -> Instant)
    requires UniqueIds(prev) && m in prev && Flagged(m) && entry.reasoningId == m.id && entry.content == ""
    ensures
      var current := Find(Upsert(prev, [entry], ctx, clock), m.id);
      current.Some? && TextOf(current.value) == ""
  {
    assert entry in [entry] && [entry][..0] == [];
    assert ChunksFor([entry], m.id) == [""] && [""][..0] == [];
    UpsertAccumulatesText(prev, [entry], ctx, clock, m);
  }

  // ---- every run ----------------------------------------------------------------------------------------------------

  /** The thread a message counts as: one without a thread belongs to the selected thread. */
  function CountsAs(m: Message, selected: Option<string>): Option<string> {
    if m.externalThreadId == "" then selected else Some(m.externalThreadId)
  }

  /**
   A clear removes exactly the streaming reasoning of one thread, the target or else the
   selected one, and there, if it names runs, of those runs only.
   */
  lemma {:induction false} ClearRemovesContext(messages: seq<Message>, options: ClearOptions, m: Message)
    ensures
      var target :=
        if options.targetThreadId in [None, Some("")] then options.selectedThreadId else options.targetThreadId;
      m in ClearStreaming(messages, options) <==>
        && m in messages
        && !(&& IsReasoning(m) && Truthy(Kwarg(m, "__streamingReasoning"))
             && CountsAs(m, options.selectedThreadId) == target
             && (options.runIds == {} || exists id | id in options.runIds :: RunId(m) == Some(id)))
  {
    WhereMembers(NotCleared(options), messages);
  }

  datatype Operation =
    | DoMerge(incoming: seq<Message>)
    | DoUpsert(entries: seq<Entry>, ctx: Context, clock: nat -> Instant)
    | DoClear(options: ClearOptions)

  function Apply(messages: seq<Message>, op: Operation): seq<Message> {
    match op
    case DoMerge(incoming) => Merge(messages, incoming)
    case DoUpsert(entries, ctx, clock) => Upsert(messages, entries, ctx, clock)
    case DoClear(options) => ClearStreaming(messages, options)
  }

  function Run(messages: seq<Message>, ops: seq<Operation>): seq<Message> {
    if ops == [] then messages else Apply(Run(messages, ops[..|ops| - 1]), ops[|ops| - 1])
  }

  /** Whatever arrives in whatever order, a thread shows each id once and in chronological order. */
  lemma {:induction false} ThreadStaysOrdered(ops: seq<Operation>)
    ensures UniqueIds(Run([], ops)) && InOrder(Run([], ops))
  {
    if ops != [] {
      ThreadStaysOrdered(ops[..|ops| - 1]);
      var before := Run([], ops[..|ops| - 1]);
      match ops[|ops| - 1]
      case DoMerge(incoming) =>
        if incoming != [] { MergeContents(before, incoming, ""); }
      case DoUpsert(entries, ctx, clock) => UpsertKeepsOrder(before, entries, ctx, clock);
      case DoClear(options) =>
        WhereUnique(NotCleared(options), before);
        WhereInOrder(NotCleared(options), before);
    }
  }

  // ---- the text of a message over every run -----------------------------------------------------------------------

  function ChunksOf(op: Operation, id: string): seq<string> {
    if op.DoUpsert? then ChunksFor(op.entries, id) else []
  }

  /** Every chunk a run brings for the message, in order. */
  function ChunksOver(ops: seq<Operation>, id: string): seq<string> {
    if ops == [] then [] else ChunksOver(ops[..|ops| - 1], id) + ChunksOf(ops[|ops| - 1], id)
  }

  /**
   The operation does not take the message away: no upsert of its run omits it, no batch replaces it,
   no clear hits it.
   */
  predicate Spares(messages: seq<Message>, op: Operation, id: string) {
    var m := Find(messages, id);
    match op
    case DoUpsert(entries, ctx, _) => m.Some? && entries != [] ==> !Stale(entries, ctx, m.value)
    case DoMerge(incoming) => LastVersion(incoming, id).None? && (m.Some? ==> !Replaced(incoming, m.value))
    case DoClear(options) => m.Some? ==> NotCleared(options)(m.value)
  }

  predicate SparedThroughout(messages: seq<Message>, ops: seq<Operation>, id: string) {
    forall n | 0 <= n < |ops| :: Spares(Run(messages, ops[..n]), ops[n], id)
  }

  lemma {:induction false} UpsertFolds(prev: seq<Message>, entries: seq<Entry>, ctx: Context, clock: nat -> Instant,
                                       id: string)
    requires UniqueIds(prev) && Streams(Find(prev, id)) && Spares(prev, DoUpsert(entries, ctx, clock), id)
    ensures UniqueIds(Upsert(prev, entries, ctx, clock))
    ensures Folds(Find(prev, id), ChunksFor(entries, id), Find(Upsert(prev, entries, ctx, clock), id))
  {
    if entries != [] {
      StartIsUnique(prev, entries, ctx);
      UpsertFind(prev, entries, ctx, clock, id);
      DropStaleFind(prev, entries, ctx, id);
      TableText(Start(prev, entries, ctx), entries, ctx, clock, id);
    }
  }

  lemma {:induction false} FindWhere(keep: Message -> bool, messages: seq<Message>, id: string)
    requires UniqueIds(messages) && (Find(messages, id).Some? ==> keep(Find(messages, id).value))
    ensures Find(Where(keep, messages), id) == Find(messages, id)
  {
    if messages != [] && messages[0].id != id {
      FindWhere(keep, messages[1..], id);
    } else if messages != [] {
      assert keep(messages[0]);
    }
  }

  lemma {:induction false} UniqueLastVersion(messages: seq<Message>, id: string)
    requires UniqueIds(messages)
    ensures LastVersion(messages, id) == Find(messages, id)
  {
    if messages != [] {
      UniqueLastVersion(messages[1..], id);
      if Find(messages[1..], id).Some? { FindMember(messages[1..], id); }
      assert forall m | m in messages[1..] :: m.id != messages[0].id;
    }
  }

  lemma {:induction false} MergeSpares(prev: seq<Message>, incoming: seq<Message>, id: string)
    requires UniqueIds(prev) && Spares(prev, DoMerge(incoming), id)
    ensures UniqueIds(Merge(prev, incoming)) && Find(Merge(prev, incoming), id) == Find(prev, id)
  {
    if incoming != [] {
      MergeContents(prev, incoming, id);
      LastVersionPatched(prev, incoming, incoming, id);
      WhereUnique(NotReplaced(incoming), prev);
      UniqueLastVersion(Kept(prev, incoming), id);
      FindWhere(NotReplaced(incoming), prev, id);
    }
  }

  lemma {:induction false} OperationFolds(messages: seq<Message>, op: Operation, id: string)
    requires UniqueIds(messages) && Streams(Find(messages, id)) && Spares(messages, op, id)
    ensures UniqueIds(Apply(messages, op)) && Folds(Find(messages, id), ChunksOf(op, id), Find(Apply(messages, op), id))
  {
    match op
    case DoUpsert(entries, ctx, clock) => UpsertFolds(messages, entries, ctx, clock, id);
    case DoMerge(incoming) => MergeSpares(messages, incoming, id);
    case DoClear(options) =>
      WhereUnique(NotCleared(options), messages);
      FindWhere(NotCleared(options), messages, id);
  }

  /**
   Over any run of merges, upserts and clears that does not take a streaming message away, its
   text is all its chunks folded, in order, into what was stored; one that was not there is
   made by its first chunk.
   */
  lemma {:induction false} TextOverRun(messages: seq<Message>, ops: seq<Operation>, id: string)
    requires UniqueIds(messages) && Streams(Find(messages, id)) && SparedThroughout(messages, ops, id)
    ensures UniqueIds(Run(messages, ops)) &&
            Folds(Find(messages, id), ChunksOver(ops, id), Find(Run(messages, ops), id))
  {
    if ops != [] {
      var before, last := ops[..|ops| - 1], ops[|ops| - 1];
      SparedBefore(messages, ops, id, |ops| - 1);
      TextOverRun(messages, before, id);
      var at := Run(messages, before);
      OperationFolds(at, last, id);
      FoldsTwice(Find(messages, id), ChunksOver(before, id), Find(at, id), ChunksOf(last, id),
        Find(Run(messages, ops), id));
    }
  }

  lemma {:induction false} SparedBefore(messages: seq<Message>, ops: seq<Operation>, id: string, n: nat)
    requires SparedThroughout(messages, ops, id) && n <= |ops|
    ensures SparedThroughout(messages, ops[..n], id)
  {
    forall k | 0 <= k < n ensures Spares(Run(messages, ops[..n][..k]), ops[..n][k], id) {
      assert ops[..n][..k] == ops[..k];
    }
  }

  lemma {:induction false} ChunksBefore(ops: seq<Operation>, id: string, n: nat)
    requires n <= |ops|
    ensures ChunksOver(ops[..n], id) <= ChunksOver(ops, id)
  {
    if n < |ops| {
      ChunksBefore(ops[..|ops| - 1], id, n);
      assert ops[..|ops| - 1][..n] == ops[..n];
    } else {
      assert ops[..n] == ops;
    }
  }

  /** Without empty chunks the text on display never gets shorter over such a run. */
  lemma {:induction false} ShownTextNeverShrinks(messages: seq<Message>, ops: seq<Operation>, id: string, n: nat)
    requires UniqueIds(messages) && Streams(Find(messages, id)) && SparedThroughout(messages, ops, id) && n <= |ops|
    requires "" !in ChunksOver(ops, id) && Find(Run(messages, ops[..n]), id).Some?
    ensures
      var end := Find(Run(messages, ops), id);
      end.Some? && |TextOf(Find(Run(messages, ops[..n]), id).value)| <= |TextOf(end.value)|
  {
    TextOverRun(messages, ops, id);
    SparedBefore(messages, ops, id, n);
    TextOverRun(messages, ops[..n], id);
    ChunksBefore(ops, id, n);
    TextNeverShrinks(Stored(Find(messages, id)), ChunksOver(ops[..n], id), ChunksOver(ops, id));
  }

  /** And when its chunks are growing snapshots, the last one is what is shown. */
  lemma {:induction false} LastSnapshotIsShown(messages: seq<Message>, ops: seq<Operation>, id: string)
    requires UniqueIds(messages) && Streams(Find(messages, id)) && SparedThroughout(messages, ops, id)
    requires ChunksOver(ops, id) != [] && Snapshots(Stored(Find(messages, id)), ChunksOver(ops, id))
    ensures
      var end, chunks := Find(Run(messages, ops), id), ChunksOver(ops, id);
      end.Some? && TextOf(end.value) == chunks[|chunks| - 1]
  {
    TextOverRun(messages, ops, id);
    LastSnapshotIsStored(Stored(Find(messages, id)), ChunksOver(ops, id));
  }

  // ---- where the fields of a rebuilt message come from ------------------------------------------------------

  /** The first that is present. */
  function FirstPresent(sources: seq<Option<string>>): Option<string> {
    if sources == [] then None else if sources[0].Some? then sources[0] else FirstPresent(sources[1..])
  }

  /**
   Where a rebuilt message stands: its thread and node as the context says, its outer thread
   from the context, the chunk or the message replaced, its times from the chunk where it has
   them, except that a message replaced keeps its creation time.
   */
  lemma {:induction false} RebuiltPlace(entry: Entry, existing: Option<Message>, ctx: Context, now: Instant)
    ensures
      var next := Rebuilt(entry, existing, ctx, now);
      && next.id == entry.reasoningId && IsReasoning(next) && next.body.value.id == Some(Str(entry.reasoningId))
      && Some(next.threadId) == FirstPresent([ctx.selectedThreadId, Some("")])
      && Some(next.nodeId) == FirstPresent([ctx.nodeId, Some(entry.reasoningId)])
      && Some(next.externalThreadId) ==
         FirstPresent([ctx.externalThreadId, entry.threadId,
                       if existing.Some? then Some(existing.value.externalThreadId) else None,
                       ctx.selectedThreadId, Some("")])
      && Some(next.updatedAt) ==
         FirstPresent([entry.updatedAt, if existing.Some? then Some(existing.value.updatedAt) else None,
                       Some(now.text)])
      && next.createdAt ==
         (if existing.Some? then existing.value.createdAt
          else if entry.createdAt.Some? then entry.createdAt.value else now)
  {
    var own := if existing.Some? then Some(existing.value.externalThreadId) else None;
    var updated := if existing.Some? then Some(existing.value.updatedAt) else None;
    FirstOfTwo(ctx.selectedThreadId, "");
    FirstOfTwo(ctx.nodeId, entry.reasoningId);
    FirstOfTwo(updated, now.text);
    FirstOf(entry.updatedAt, [updated, Some(now.text)]);
    assert [entry.updatedAt] + [updated, Some(now.text)] == [entry.updatedAt, updated, Some(now.text)];
    var two := [ctx.selectedThreadId, Some("")];
    FirstOf(own, two);
    FirstOf(entry.threadId, [own] + two);
    FirstOf(ctx.externalThreadId, [entry.threadId] + ([own] + two));
    assert [ctx.externalThreadId] + ([entry.threadId] + ([own] + two)) ==
           [ctx.externalThreadId, entry.threadId, own, ctx.selectedThreadId, Some("")];
  }

  lemma {:induction false} FirstOf(a: Option<string>, rest: seq<Option<string>>)
    ensures FirstPresent([a] + rest) == if a.Some? then a else FirstPresent(rest)
  {
    assert ([a] + rest)[1..] == rest;
  }

  lemma {:induction false} FirstOfTwo(a: Option<string>, default: string)
    ensures FirstPresent([a, Some(default)]) == if a.Some? then a else Some(default)
  {
    assert [a] + [Some(default)] == [a, Some(default)];
    FirstOf(a, [Some(default)]);
  }

  function FieldOf(kwargs: map<string, Json>, key: string): Option<Json> {
    if key in kwargs then Some(kwargs[key]) else None
  }

  /** The first of the two that is not empty, else the value inherited. */
  function FirstGiven(own: Option<string>, context: Option<string>, inherited: Option<Json>): Option<Json> {
    if NonEmpty(own).Some? then Some(Str(own.value))
    else if NonEmpty(context).Some? then Some(Str(context.value))
    else inherited
  }

  lemma {:induction false} RoutedFields(entry: Entry, ctx: Context, kwargs: map<string, Json>)
    ensures
      var routed := RouteKwargs(entry, ctx, kwargs);
      && FieldOf(routed, "__toolCallId") ==
         FirstGiven(entry.toolCallId, ctx.toolCallId, FieldOf(kwargs, "__toolCallId"))
      && FieldOf(routed, "__sourceAgentNodeId") ==
         FirstGiven(entry.sourceAgentNodeId, ctx.sourceAgentNodeId, FieldOf(kwargs, "__sourceAgentNodeId"))
      && FieldOf(routed, "__subagentCommunication") ==
         (if entry.subagent || ctx.subagent then Some(Bool(true)) else FieldOf(kwargs, "__subagentCommunication"))
      && FieldOf(routed, "__interAgentCommunication") ==
         (if entry.interAgent || ctx.interAgent then Some(Bool(true)) else FieldOf(kwargs, "__interAgentCommunication"))
  {
    assert |"__toolCallId"| == 12 && |"__sourceAgentNodeId"| == 19;
    assert |"__subagentCommunication"| == 23 && |"__interAgentCommunication"| == 25;
  }

  lemma {:induction false} RoutingLeavesRun(entry: Entry, ctx: Context, kwargs: map<string, Json>)
    ensures forall k | k in ["__runId", "run_id", "runId"] ::
            FieldOf(RouteKwargs(entry, ctx, kwargs), k) == FieldOf(kwargs, k)
  {
    assert |"__runId"| == 7 && |"run_id"| == 6 && |"runId"| == 5 && |"__toolCallId"| == 12;
    assert |"__sourceAgentNodeId"| == 19 && |"__subagentCommunication"| == 23 && |"__interAgentCommunication"| == 25;
  }

  lemma {:induction false} MarkingLeavesRouting(entry: Entry, had: map<string, Json>, ctx: Context, createdAt: Instant)
    ensures forall k | k in ROUTING_KEYS :: FieldOf(MarkKwargs(entry, had, ctx, createdAt), k) == FieldOf(had, k)
  {
    assert |"__runId"| == 7 && |"__createdAt"| == 11 && |"__toolCallId"| == 12 && |"__reasoningId"| == 13;
    assert |STREAMING_REASONING_FLAG| == 20 && |"__sourceAgentNodeId"| == 19;
    assert |"__subagentCommunication"| == 23 && |"__interAgentCommunication"| == 25;
  }

  const ROUTING_KEYS := ["__toolCallId", "__subagentCommunication", "__interAgentCommunication", "__sourceAgentNodeId"]

  lemma {:induction false} MarkedRun(entry: Entry, had: map<string, Json>, ctx: Context, createdAt: Instant)
    ensures
      var marked := MarkKwargs(entry, had, ctx, createdAt);
      && FieldOf(marked, "run_id") == FieldOf(had, "run_id") && FieldOf(marked, "runId") == FieldOf(had, "runId")
      && FieldOf(marked, "__runId") ==
         (if NonEmpty(ctx.runId).Some? then Some(Str(ctx.runId.value))
          else if ctx.runId.Some? then FieldOf(had, "__runId")
          else if NonEmpty(entry.runId).Some? then Some(Str(entry.runId.value))
          else if entry.runId.Some? then FieldOf(had, "__runId")
          else if StringOf(FieldOf(had, "__runId")).Some? then FieldOf(had, "__runId")
          else if NonEmpty(StringOf(FieldOf(had, "run_id"))).Some? then FieldOf(had, "run_id")
          else FieldOf(had, "__runId"))
  {
    assert |"__runId"| == 7 && |"run_id"| == 6 && |"runId"| == 5 && |"__createdAt"| == 11 && |"__reasoningId"| == 13;
    assert |STREAMING_REASONING_FLAG| == 20;
  }

  lemma {:induction false} RebuiltKwargs(entry: Entry, existing: Option<Message>, ctx: Context, now: Instant)
    returns (createdAt: Instant)
    ensures Kwargs(Rebuilt(entry, existing, ctx, now)) ==
            RouteKwargs(entry, ctx,
              MarkKwargs(entry, if existing.Some? then Kwargs(existing.value) else map[], ctx, createdAt))
  {
    createdAt := if existing.Some? then existing.value.createdAt else OrElse(entry.createdAt, now);
  }

  function Inherited(existing: Option<Message>, key: string): Option<Json> {
    if existing.Some? then Kwarg(existing.value, key) else None
  }

  /** Each routing field comes from the chunk, else from the context, else from the message replaced. */
  lemma {:induction false} RebuiltRouting(entry: Entry, existing: Option<Message>, ctx: Context, now: Instant)
    ensures
      var next := Rebuilt(entry, existing, ctx, now);
      && Kwarg(next, "__toolCallId") ==
         FirstGiven(entry.toolCallId, ctx.toolCallId, Inherited(existing, "__toolCallId"))
      && Kwarg(next, "__sourceAgentNodeId") ==
         FirstGiven(entry.sourceAgentNodeId, ctx.sourceAgentNodeId, Inherited(existing, "__sourceAgentNodeId"))
      && Kwarg(next, "__subagentCommunication") ==
         (if entry.subagent || ctx.subagent then Some(Bool(true)) else Inherited(existing, "__subagentCommunication"))
      && Kwarg(next, "__interAgentCommunication") ==
         (if entry.interAgent || ctx.interAgent then Some(Bool(true))
           else Inherited(existing, "__interAgentCommunication"))
  {
    var had := if existing.Some? then Kwargs(existing.value) else map[];
    var createdAt := RebuiltKwargs(entry, existing, ctx, now);
    MarkingLeavesRouting(entry, had, ctx, createdAt);
    RoutedFields(entry, ctx, MarkKwargs(entry, had, ctx, createdAt));
    assert forall k | k in ROUTING_KEYS :: FieldOf(had, k) == Inherited(existing, k);
  }

  /**
   Its marks: the reasoning id and the flag, and a time stamp, the chunk's or else the one it
   had, or else its creation time. Kwargs that neither mark nor route are inherited.
   */
  lemma {:induction false} RebuiltMarks(entry: Entry, existing: Option<Message>, ctx: Context, now: Instant,
                                        key: string)
    ensures
      var next := Rebuilt(entry, existing, ctx, now);
      && Kwarg(next, "__reasoningId") == Some(Str(entry.reasoningId))
      && Kwarg(next, "__streamingReasoning") == Some(Bool(true))
      && Kwarg(next, "__createdAt") ==
         (if entry.createdAt.Some? && entry.createdAt.value.text != "" then Some(Str(entry.createdAt.value.text))
          else if Truthy(Inherited(existing, "__createdAt")) then Inherited(existing, "__createdAt")
          else Some(Str(next.createdAt.text)))
      && (key !in ROUTING_KEYS && key !in ["__reasoningId", "__streamingReasoning", "__createdAt", "__runId"] ==>
            Kwarg(next, key) == Inherited(existing, key))
  {
    var had := if existing.Some? then Kwargs(existing.value) else map[];
    var createdAt := if existing.Some? then existing.value.createdAt else OrElse(entry.createdAt, now);
    MarkKeys();
    MarkedStamp(entry, had, ctx, createdAt, key);
    RoutingLeavesMarks(entry, ctx, MarkKwargs(entry, had, ctx, createdAt));
    RebuiltAs(entry, existing, ctx, now, createdAt);
  }

  lemma {:induction false} RebuiltAs(entry: Entry, existing: Option<Message>, ctx: Context, now: Instant,
                                     createdAt: Instant)
    requires createdAt == if existing.Some? then existing.value.createdAt else OrElse(entry.createdAt, now)
    ensures
      var next, had := Rebuilt(entry, existing, ctx, now), if existing.Some? then Kwargs(existing.value) else map[];
      && next.createdAt == createdAt
      && forall k :: Kwarg(next, k) == FieldOf(RouteKwargs(entry, ctx, MarkKwargs(entry, had, ctx, createdAt)), k)
    ensures forall k :: FieldOf(if existing.Some? then Kwargs(existing.value) else map[], k) == Inherited(existing, k)
  {
  }

  lemma {:induction false} MarkKeys()
    ensures forall k | k in ["__reasoningId", "__streamingReasoning", "__createdAt", "__runId"] :: k !in ROUTING_KEYS
  {
    assert |"__runId"| == 7 && |"__createdAt"| == 11 && |"__toolCallId"| == 12 && |"__reasoningId"| == 13;
    assert |"__streamingReasoning"| == 20 && |"__sourceAgentNodeId"| == 19;
    assert |"__subagentCommunication"| == 23 && |"__interAgentCommunication"| == 25;
  }

  lemma {:induction false} MarkedStamp(entry: Entry, had: map<string, Json>, ctx: Context, createdAt: Instant,
                                       key: string)
    ensures
      var marked := MarkKwargs(entry, had, ctx, createdAt);
      && FieldOf(marked, "__reasoningId") == Some(Str(entry.reasoningId))
      && FieldOf(marked, "__streamingReasoning") == Some(Bool(true))
      && FieldOf(marked, "__createdAt") ==
         (if entry.createdAt.Some? && entry.createdAt.value.text != "" then Some(Str(entry.createdAt.value.text))
          else if Truthy(FieldOf(had, "__createdAt")) then FieldOf(had, "__createdAt")
          else Some(Str(createdAt.text)))
      && (key !in ["__reasoningId", "__streamingReasoning", "__createdAt", "__runId"] ==>
            FieldOf(marked, key) == FieldOf(had, key))
  {
    assert |"__runId"| == 7 && |"__createdAt"| == 11 && |"__reasoningId"| == 13 && |"__streamingReasoning"| == 20;
  }

  lemma {:induction false} RoutingLeavesMarks(entry: Entry, ctx: Context, kwargs: map<string, Json>)
    ensures forall k | k !in ROUTING_KEYS :: FieldOf(RouteKwargs(entry, ctx, kwargs), k) == FieldOf(kwargs, k)
  {
  }

  /**
   The run is the context's, else the chunk's, else that of the message replaced; an empty text in
   between blocks the next source.
   */
  lemma {:induction false} RebuiltRun(entry: Entry, existing: Option<Message>, ctx: Context, now: Instant)
    ensures
      var next := Rebuilt(entry, existing, ctx, now);
      if NonEmpty(ctx.runId).Some? then RunId(next) == ctx.runId
      else if ctx.runId.None? && NonEmpty(entry.runId).Some? then RunId(next) == entry.runId
      else if existing.None? then RunId(next) == None
      else Kwarg(existing.value, "__runId") in [None, Some(Null)] || Kwarg(existing.value, "__runId").value.Str? ==>
             RunId(next) == RunId(existing.value)
  {
    var had := if existing.Some? then Kwargs(existing.value) else map[];
    var createdAt := RebuiltKwargs(entry, existing, ctx, now);
    var marked := MarkKwargs(entry, had, ctx, createdAt);
    MarkedRun(entry, had, ctx, createdAt);
    RoutingLeavesRun(entry, ctx, marked);
    assert forall k | k in ["__runId", "run_id", "runId"] ::
        Kwarg(Rebuilt(entry, existing, ctx, now), k) == FieldOf(marked, k) && FieldOf(had, k) == Inherited(existing, k);
    assert "__runId" in ["__runId", "run_id", "runId"] && "run_id" in ["__runId", "run_id", "runId"];
    assert "runId" in ["__runId", "run_id", "runId"];
  }
}
