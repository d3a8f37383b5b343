/** Upserting streamed reasoning chunks into a thread, and clearing them again. */
module ReasoningUpsert {
  import opened JsonValues
  import opened Messages

  datatype Entry = Entry(
    reasoningId: string,
    content: string,
    createdAt: Option<Instant>,
    updatedAt: Option<string>,
    runId: Option<string>,
    threadId: Option<string>,
    toolCallId: Option<string>,
    subagent: bool,
    interAgent: bool,
    sourceAgentNodeId: Option<string>)

  datatype Context = Context(
    externalThreadId: Option<string>,
    runId: Option<string>,
    selectedThreadId: Option<string>,
    nodeId: Option<string>,
    toolCallId: Option<string>,
    subagent: bool,
    interAgent: bool,
    sourceAgentNodeId: Option<string>)

  // ---- building a message from a chunk -----------------------------------------------------------------

  function Or<T>(a: Option<T>, b: Option<T>): Option<T> { if a.Some? then a else b }

  function OrElse<T>(a: Option<T>, default: T): T { if a.Some? then a.value else default }

  function SetIf(kwargs: map<string, Json>, key: string, value: Option<string>): map<string, Json> {
    if value.Some? then kwargs[key := Str(value.value)] else kwargs
  }

  function FlagIf(kwargs: map<string, Json>, key: string, on: bool): map<string, Json> {
    if on then kwargs[key := Bool(true)] else kwargs
  }

  /** The marks every streamed message gets: its reasoning id, the flag, its run, its creation time. */
  function MarkKwargs(entry: Entry, had: map<string, Json>, ctx: Context, createdAt: Instant): map<string, Json> {
    var marked := had["__reasoningId" := Str(entry.reasoningId)][STREAMING_REASONING_FLAG := Bool(true)];
    var ownRun := if "__runId" in had && had["__runId"].Str? then Some(had["__runId"].s)
                  else if "run_id" in had && had["run_id"].Str? then Some(had["run_id"].s) else None;
    var run := SetIf(marked, "__runId", NonEmpty(Or(ctx.runId, Or(entry.runId, ownRun))));
    if entry.createdAt.Some? && entry.createdAt.value.text != "" then
      run["__createdAt" := Str(entry.createdAt.value.text)]
    else if "__createdAt" in run && Truthy(Some(run["__createdAt"])) then run
    else run["__createdAt" := Str(createdAt.text)]
  }

  /** The routing fields, from the chunk or else from the context. */
  function RouteKwargs(entry: Entry, ctx: Context, kwargs: map<string, Json>): map<string, Json> {
    var tool := SetIf(kwargs, "__toolCallId", Or(NonEmpty(entry.toolCallId), NonEmpty(ctx.toolCallId)));
    var sub := FlagIf(tool, "__subagentCommunication", entry.subagent || ctx.subagent);
    var inter := FlagIf(sub, "__interAgentCommunication", entry.interAgent || ctx.interAgent);
    SetIf(inter, "__sourceAgentNodeId", Or(NonEmpty(entry.sourceAgentNodeId), NonEmpty(ctx.sourceAgentNodeId)))
  }

  function BuildKwargs(entry: Entry, existing: Option<Message>, ctx: Context, createdAt: Instant): map<string, Json> {
    var had := if existing.Some? then Kwargs(existing.value) else map[];
    RouteKwargs(entry, ctx, MarkKwargs(entry, had, ctx, createdAt))
  }

  /** buildReasoningThreadMessage; a stored message always has its own creation time. */
  function Build(entry: Entry, existing: Option<Message>, ctx: Context, now: Instant): Message {
    var createdAt := if existing.Some? then existing.value.createdAt else OrElse(entry.createdAt, now);
    var ownThread := if existing.Some? then Some(existing.value.externalThreadId) else None;
    var ownUpdate := if existing.Some? then Some(existing.value.updatedAt) else None;
    Message(
      entry.reasoningId,
      OrElse(ctx.selectedThreadId, ""),
      OrElse(ctx.nodeId, entry.reasoningId),
      OrElse(Or(ctx.externalThreadId, Or(entry.threadId, Or(ownThread, ctx.selectedThreadId))), ""),
      createdAt,
      OrElse(Or(entry.updatedAt, ownUpdate), now.text),
      Some(Body("reasoning", Some(Str(entry.reasoningId)), Some(Str(entry.content)),
                Some(BuildKwargs(entry, existing, ctx, createdAt)))))
  }

  // ---- one entry --------------------------------------------------------------------------------------------

  function TextOf(m: Message): string {
    if m.body.Some? && m.body.value.content.Some? && m.body.value.content.value.Str? then m.body.value.content.value.s
    else ""
  }

  /** The flag alone, whatever the role. */
  predicate Flagged(m: Message) { Truthy(Kwarg(m, STREAMING_REASONING_FLAG)) }

  /** The text kept for a streaming message when a chunk arrives: a snapshot replaces it, a fragment extends it. */
  function StoredText(stored: string, chunk: string): string {
    if chunk == "" then ""
    else
      var merged := if stored <= chunk || |chunk| > |stored| then chunk else stored + chunk;
      if |merged| > |stored| then merged else chunk
  }

  function WithText(m: Message, text: string): Message
    requires m.body.Some?
  {
    m.(body := Some(m.body.value.(content := Some(Str(text)))))
  }

  function Rebuilt(entry: Entry, existing: Option<Message>, ctx: Context, now: Instant): Message {
    var next := Build(entry, existing, ctx, now);
    if existing.Some? && Flagged(existing.value) then WithText(next, StoredText(TextOf(existing.value), entry.content))
    else next
  }

  datatype Progress = Progress(table: seq<Message>, hasChanges: bool, hasNewEntries: bool)

  function UpsertOne(p: Progress, entry: Entry, ctx: Context, now: Instant): Progress {
    var existing := Find(p.table, entry.reasoningId);
    if existing.Some? && !Flagged(existing.value) then p
    else Progress(Put(p.table, Rebuilt(entry, existing, ctx, now)), true, p.hasNewEntries || existing.None?)
  }

  /** `clock` gives the time read while the i-th entry is processed. */
  function UpsertAll(p: Progress, entries: seq<Entry>, ctx: Context, clock: nat -> Instant): Progress {
    if entries == [] then p
    else
      var last := |entries| - 1;
      UpsertOne(UpsertAll(p, entries[..last], ctx, clock), entries[last], ctx, clock(last))
  }

  // ---- the upsert -----------------------------------------------------------------------------------------------

  predicate HasEntry(entries: seq<Entry>, id: string) { exists e | e in entries :: e.reasoningId == id }

  /** A streaming message of the run that the entries no longer mention. */
  predicate Stale(entries: seq<Entry>, ctx: Context, m: Message) {
    NonEmpty(ctx.runId).Some? && !HasEntry(entries, m.id) && IsStreaming(m) && RunId(m) == ctx.runId
  }

  function NotStale(entries: seq<Entry>, ctx: Context): Message -> bool { (m: Message) => !Stale(entries, ctx, m) }

  function DropStale(messages: seq<Message>, entries: seq<Entry>, ctx: Context): seq<Message> {
    Where(NotStale(entries, ctx), messages)
  }

  /** `prev.filter(byId.has).map(byId.get)` */
  function InPlace(prev: seq<Message>, table: seq<Message>): seq<Message> {
    if prev == [] then []
    else
      var current := Find(table, prev[0].id);
      if current.Some? then [current.value] + InPlace(prev[1..], table) else InPlace(prev[1..], table)
  }

  function Start(prev: seq<Message>, entries: seq<Entry>, ctx: Context): Progress {
    var byId := PutAll([], prev);
    Progress(DropStale(byId, entries, ctx), DropStale(byId, entries, ctx) != byId, false)
  }

  function Upsert(prev: seq<Message>, entries: seq<Entry>, ctx: Context, clock: nat -> Instant): seq<Message> {
    if entries == [] then prev
    else
      var p := UpsertAll(Start(prev, entries, ctx), entries, ctx, clock);
      if !p.hasChanges then prev
      else if !p.hasNewEntries then InPlace(prev, p.table)
      else Chronological(p.table)
  }

  method UpsertReasoningEntries(prev: seq<Message>, entries: seq<Entry>, ctx: Context, clock: nat -> Instant)
    returns (result: seq<Message>)
    ensures result == Upsert(prev, entries, ctx, clock)
  {
    if |entries| == 0 {
      return prev;
    }
    var byId := PutAll([], prev);
    var hasChanges, hasNewEntries := false, false;
    if NonEmpty(ctx.runId).Some? {
      byId, hasChanges := RemoveStale(byId, entries, ctx);
    } else {
      WhereAll(NotStale(entries, ctx), byId);
    }
    for i := 0 to |entries|
      invariant Progress(byId, hasChanges, hasNewEntries) ==
                UpsertAll(Start(prev, entries, ctx), entries[..i], ctx, clock)
    {
      var entry := entries[i];
      assert entries[..i + 1][..i] == entries[..i];
      var existing := Find(byId, entry.reasoningId);
      if existing.None? || Flagged(existing.value) {
        var next := ApplyEntry(entry, existing, ctx, clock(i));
        if existing.None? || IsChange(existing.value, entry, next) {
          RebuiltIsChange(entry, existing, ctx, clock(i));
          hasChanges := true;
          if existing.None? {
            hasNewEntries := true;
          }
        }
        RebuiltIsChange(entry, existing, ctx, clock(i));
        byId := Put(byId, next);
      }
    }
    assert entries[..|entries|] == entries;
    if !hasChanges {
      result := prev;
    } else if !hasNewEntries {
      result := InPlace(prev, byId);
    } else {
      result := SortMessagesChronologically(byId);
    }
  }

  /** The clean-up loop over the map. */
  method RemoveStale(byId: seq<Message>, entries: seq<Entry>, ctx: Context) returns (left: seq<Message>, removed: bool)
    ensures left == DropStale(byId, entries, ctx) && removed == (left != byId)
  {
    left, removed := [], false;
    for i := 0 to |byId|
      invariant left == DropStale(byId[..i], entries, ctx)
      invariant removed == (left != byId[..i]) && |left| <= i
    {
      assert byId[..i + 1] == byId[..i] + [byId[i]];
      WhereAppend(NotStale(entries, ctx), byId[..i], byId[i]);
      if Stale(entries, ctx, byId[i]) {
        removed := true;
      } else {
        left := left + [byId[i]];
      }
    }
    assert byId[..|byId|] == byId;
  }

  /** The rebuild of one entry, with the merging of its text into an existing streaming message. */
  method ApplyEntry(entry: Entry, existing: Option<Message>, ctx: Context, now: Instant) returns (next: Message)
    ensures next == Rebuilt(entry, existing, ctx, now)
  {
    next := Build(entry, existing, ctx, now);
    if existing.Some? && Flagged(existing.value) && |entry.content| > 0 {
      var existingContent := TextOf(existing.value);
      var shouldUseIncoming := existingContent <= entry.content || |entry.content| > |existingContent|;
      var mergedContent := if shouldUseIncoming then entry.content else existingContent + entry.content;
      next := WithText(next, if |mergedContent| > |existingContent| then mergedContent else entry.content);
    }
  }

  /** The change test: content, update time, kwargs, or simply that the result streams. */
  predicate IsChange(existing: Message, entry: Entry, next: Message) {
    TextOf(existing) != entry.content || existing.updatedAt != next.updatedAt || Kwargs(existing) != Kwargs(next) ||
      Flagged(next)
  }

  // ---- what a rebuilt message is ---------------------------------------------------------------------------------

  lemma {:induction false} FlagKeyIsOwn()
    ensures STREAMING_REASONING_FLAG !in
              ["__runId", "__createdAt", "__toolCallId", "__subagentCommunication", "__interAgentCommunication",
                "__sourceAgentNodeId"]
  {
    assert |STREAMING_REASONING_FLAG| == 20 && |"__runId"| == 7 && |"__createdAt"| == 11 && |"__toolCallId"| == 12;
    assert |"__subagentCommunication"| == 23 && |"__interAgentCommunication"| == 25 && |"__sourceAgentNodeId"| == 19;
  }

  lemma {:induction false} BuildKwargsFlag(entry: Entry, existing: Option<Message>, ctx: Context, createdAt: Instant)
    ensures STREAMING_REASONING_FLAG in BuildKwargs(entry, existing, ctx, createdAt)
    ensures BuildKwargs(entry, existing, ctx, createdAt)[STREAMING_REASONING_FLAG] == Bool(true)
  {
    FlagKeyIsOwn();
  }

  /** It streams under the entry's id, and keeps the creation time of what it replaces. */
  lemma {:induction false} RebuiltStreams(entry: Entry, existing: Option<Message>, ctx: Context, now: Instant)
    ensures
      var next := Rebuilt(entry, existing, ctx, now);
      && next.id == entry.reasoningId && IsStreaming(next) && Flagged(next)
      && (existing.Some? ==> next.createdAt == existing.value.createdAt)
      && TextOf(next) ==
         (if existing.Some? && Flagged(existing.value) then StoredText(TextOf(existing.value), entry.content)
                          else entry.content)
  {
    var createdAt := if existing.Some? then existing.value.createdAt else OrElse(entry.createdAt, now);
    BuildKwargsFlag(entry, existing, ctx, createdAt);
  }

  /** So every processed entry counts as a change. */
  lemma {:induction false} RebuiltIsChange(entry: Entry, existing: Option<Message>, ctx: Context, now: Instant)
    ensures existing.Some? ==> IsChange(existing.value, entry, Rebuilt(entry, existing, ctx, now))
  {
    RebuiltStreams(entry, existing, ctx, now);
  }

  // ---- clearing --------------------------------------------------------------------------------------------------

  datatype ClearOptions = ClearOptions(targetThreadId: Option<string>, selectedThreadId: Option<string>,
    runIds: set<string>)

  /** The clear's predicate: an absent thread counts as the selected one. */
  predicate InClearedContext(options: ClearOptions, m: Message) {
    var target := NonEmpty(options.targetThreadId);
    var threadMatches :=
      if target.Some? then
        m.externalThreadId == target.value || (m.externalThreadId == "" && target == options.selectedThreadId)
      else m.externalThreadId == "" || Some(m.externalThreadId) == options.selectedThreadId;
    threadMatches && (options.runIds == {} || (RunId(m).Some? && RunId(m).value in options.runIds))
  }

  function NotCleared(options: ClearOptions): Message -> bool {
    (m: Message) => !(IsStreaming(m) && InClearedContext(options, m))
  }

  function ClearStreaming(messages: seq<Message>, options: ClearOptions): seq<Message> {
    Where(NotCleared(options), messages)
  }
}
