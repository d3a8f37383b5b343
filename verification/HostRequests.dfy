/** Pending id-correlated requests to the host: created, resolved once, failed at the end. */
module HostRequests {

  datatype Settlement<T> = Resolved(value: T) | Failed(reason: string)

  /** The table, with the history a caller can observe: ids handed out and promises settled. */
  datatype Table<T> = Table(prefix: string, seqNo: nat, pending: seq<string>,
                            created: seq<string>, settled: seq<(string, Settlement<T>)>)

  function Digit(d: nat): char requires d < 10 { "0123456789"[d] }

  function Decimal(n: nat): string {
    if n < 10 then [Digit(n)] else Decimal(n / 10) + [Digit(n % 10)]
  }

  function RequestId(prefix: string, n: nat, uuid: string): string {
    prefix + "-" + Decimal(n) + "-" + uuid
  }

  function EmptyTable<T>(prefix: string): Table<T> { Table(prefix, 0, [], [], []) }

  function NextId<T>(t: Table<T>, uuid: string): string { RequestId(t.prefix, t.seqNo + 1, uuid) }

  function AfterCreate<T>(t: Table<T>, uuid: string): Table<T> {
    var id := NextId(t, uuid);
    t.(seqNo := t.seqNo + 1, pending := t.pending + [id], created := t.created + [id])
  }

  function Without(ids: seq<string>, id: string): seq<string> {
    if ids == [] then []
    else if ids[0] == id then ids[1..]
    else [ids[0]] + Without(ids[1..], id)
  }

  function AfterResolve<T>(t: Table<T>, id: string, value: T): Table<T> {
    if id in t.pending then
      t.(pending := Without(t.pending, id), settled := t.settled + [(id, Resolved(value))])
    else t
  }

  function AllFailed<T>(ids: seq<string>, reason: string): seq<(string, Settlement<T>)> {
    seq(|ids|, i requires 0 <= i < |ids| => (ids[i], Failed(reason)))
  }

  function AfterFailAll<T>(t: Table<T>, reason: string): Table<T> {
    t.(pending := [], settled := t.settled + AllFailed(t.pending, reason))
  }

  class PendingHostRequests<T> {
    const prefix: string
    var seqNo: nat
    var pending: seq<string>
    ghost var created: seq<string>
    ghost var settled: seq<(string, Settlement<T>)>

    ghost function View(): Table<T>
      reads this
    {
      Table(prefix, seqNo, pending, created, settled)
    }

    constructor (prefix: string)
      ensures View() == EmptyTable(prefix)
    {
      this.prefix := prefix;
      seqNo, pending, created, settled := 0, [], [], [];
    }

    method Create(uuid: string) returns (id: string)
      modifies this
      ensures id == NextId(old(View()), uuid) && View() == AfterCreate(old(View()), uuid)
    {
      seqNo := seqNo + 1;
      id := prefix + "-" + Decimal(seqNo) + "-" + uuid;
      pending := pending + [id];
      created := created + [id];
    }

    method Resolve(id: string, value: T) returns (matched: bool)
      modifies this
      ensures View() == AfterResolve(old(View()), id, value) && matched == (id in old(pending))
    {
      if id !in pending {
        return false;
      }
      pending := Without(pending, id);
      settled := settled + [(id, Resolved(value))];
      return true;
    }

    method FailAll(reason: string)
      modifies this
      ensures View() == AfterFailAll(old(View()), reason)
    {
      var settlers := pending;
      pending := [];
      for i := 0 to |settlers|
        invariant settled == old(settled) + AllFailed(settlers[..i], reason)
        invariant pending == [] && seqNo == old(seqNo) && created == old(created)
      {
        settled := settled + [(settlers[i], Failed(reason))];
        assert settlers[..i + 1] == settlers[..i] + [settlers[i]];
      }
      assert settlers[..|settlers|] == settlers;
    }
  }

  // ---- ids -------------------------------------------------------------------------------------

  function Value(s: string): int {
    if s == "" then 0 else Value(s[..|s| - 1]) * 10 + (s[|s| - 1] as int - '0' as int)
  }

  lemma {:induction false} DecimalIsNumeral(n: nat)
    ensures Value(Decimal(n)) == n && '-' !in Decimal(n)
  {
    var digits := Decimal(n);
    if n < 10 {
      assert digits[..|digits| - 1] == "";
    } else {
      DecimalIsNumeral(n / 10);
      assert digits[..|digits| - 1] == Decimal(n / 10);
    }
  }

  lemma {:induction false} UpToDash(a: string, u: string, b: string, w: string)
    requires '-' !in a && '-' !in b && a + "-" + u == b + "-" + w
    ensures a == b
  {
    var s, s' := a + "-" + u, b + "-" + w;
    assert s[|a|] == '-' && forall i | 0 <= i < |a| :: s[i] == a[i] && a[i] in a;
    assert s'[|b|] == '-' && forall i | 0 <= i < |b| :: s'[i] == b[i] && b[i] in b;
    assert a == s[..|a|] && b == s'[..|b|];
  }

  /** The counter alone keeps ids apart, whatever the random suffixes are. */
  lemma {:induction false} IdsDiffer(prefix: string, n: nat, u: string, m: nat, w: string)
    requires n != m
    ensures RequestId(prefix, n, u) != RequestId(prefix, m, w)
  {
    if RequestId(prefix, n, u) == RequestId(prefix, m, w) {
      var k := |prefix| + 1;
      assert RequestId(prefix, n, u)[k..] == Decimal(n) + "-" + u;
      assert RequestId(prefix, m, w)[k..] == Decimal(m) + "-" + w;
      DecimalIsNumeral(n);
      DecimalIsNumeral(m);
      UpToDash(Decimal(n), u, Decimal(m), w);
    }
  }

  // ---- every run ---------------------------------------------------------------------------------

  predicate NoDuplicates(ids: seq<string>) { forall i, j | 0 <= i < j < |ids| :: ids[i] != ids[j] }

  function SettledIds<T>(t: Table<T>): seq<string> {
    seq(|t.settled|, i requires 0 <= i < |t.settled| => t.settled[i].0)
  }

  ghost predicate IsRequestId(id: string, prefix: string, n: nat) {
    exists uuid :: id == RequestId(prefix, n, uuid)
  }

  /** The i-th id was made from the counter value i + 1. */
  ghost predicate Numbered<T>(t: Table<T>) {
    |t.created| == t.seqNo && forall i | 0 <= i < |t.created| :: IsRequestId(t.created[i], t.prefix, i + 1)
  }

  /** Every id handed out is either pending or settled: never both, and neither of them twice. */
  ghost predicate Consistent<T>(t: Table<T>) {
    && Numbered(t)
    && NoDuplicates(t.created) && NoDuplicates(t.pending) && NoDuplicates(SettledIds(t))
    && (forall id :: id in t.created <==> id in t.pending || id in SettledIds(t))
    && (forall id | id in t.pending :: id !in SettledIds(t))
  }

  lemma {:induction false} NoDuplicatesConcat(a: seq<string>, b: seq<string>)
    requires NoDuplicates(a) && NoDuplicates(b) && forall id | id in a :: id !in b
    ensures NoDuplicates(a + b)
  {
    forall i, j | 0 <= i < j < |a + b| ensures (a + b)[i] != (a + b)[j] {
      if i < |a| <= j { assert a[i] in a && b[j - |a|] in b; }
    }
  }

  lemma {:induction false} NextIdIsNew<T>(t: Table<T>, uuid: string)
    requires Numbered(t)
    ensures NextId(t, uuid) !in t.created
  {
    forall i | 0 <= i < |t.created| ensures t.created[i] != NextId(t, uuid) {
      var u :| t.created[i] == RequestId(t.prefix, i + 1, u);
      IdsDiffer(t.prefix, i + 1, u, t.seqNo + 1, uuid);
    }
  }

  lemma {:induction false} CreateKeeps<T>(t: Table<T>, uuid: string)
    requires Consistent(t)
    ensures Consistent(AfterCreate(t, uuid)) && NextId(t, uuid) !in t.created
  {
    var next, id := AfterCreate(t, uuid), NextId(t, uuid);
    NextIdIsNew(t, uuid);
    NoDuplicatesConcat(t.created, [id]);
    NoDuplicatesConcat(t.pending, [id]);
    assert SettledIds(next) == SettledIds(t);
    assert IsRequestId(id, t.prefix, t.seqNo + 1);
  }

  lemma {:induction false} WithoutDrops(ids: seq<string>, id: string)
    requires NoDuplicates(ids)
    ensures NoDuplicates(Without(ids, id)) && forall x :: x in Without(ids, id) <==> x in ids && x != id
  {
    if ids != [] {
      WithoutDrops(ids[1..], id);
      assert ids == [ids[0]] + ids[1..] && ids[0] !in ids[1..];
      if ids[0] != id { NoDuplicatesConcat([ids[0]], Without(ids[1..], id)); }
    }
  }

  lemma {:induction false} ResolveKeeps<T>(t: Table<T>, id: string, value: T)
    requires Consistent(t)
    ensures Consistent(AfterResolve(t, id, value))
  {
    if id in t.pending {
      var next := AfterResolve(t, id, value);
      WithoutDrops(t.pending, id);
      NoDuplicatesConcat(SettledIds(t), [id]);
      assert SettledIds(next) == SettledIds(t) + [id];
    }
  }

  lemma {:induction false} FailAllKeeps<T>(t: Table<T>, reason: string)
    requires Consistent(t)
    ensures Consistent(AfterFailAll(t, reason))
    ensures forall id | id in t.created :: id in SettledIds(AfterFailAll(t, reason))
    ensures SettledIds(AfterFailAll(t, reason)) == SettledIds(t) + t.pending
  {
    var next := AfterFailAll(t, reason);
    NoDuplicatesConcat(SettledIds(t), t.pending);
    assert SettledIds(next) == SettledIds(t) + t.pending;
  }

  datatype Step<T> = DoCreate(uuid: string) | DoResolve(id: string, value: T) | DoFailAll(reason: string)

  function Apply<T>(t: Table<T>, step: Step<T>): Table<T> {
    match step
    case DoCreate(uuid) => AfterCreate(t, uuid)
    case DoResolve(id, value) => AfterResolve(t, id, value)
    case DoFailAll(reason) => AfterFailAll(t, reason)
  }

  function Run<T>(t: Table<T>, steps: seq<Step<T>>): Table<T>
    decreases |steps|
  {
    if steps == [] then t else Run(Apply(t, steps[0]), steps[1..])
  }

  /** Whatever the calls: ids are distinct, nothing is settled twice, and no settlement is ever revised. */
  lemma {:induction false} RunKeeps<T>(t: Table<T>, steps: seq<Step<T>>)
    requires Consistent(t)
    ensures Consistent(Run(t, steps)) && NoDuplicates(SettledIds(Run(t, steps)))
    ensures t.settled <= Run(t, steps).settled && t.created <= Run(t, steps).created
    decreases |steps|
  {
    if steps != [] {
      match steps[0] {
        case DoCreate(uuid) => CreateKeeps(t, uuid);
        case DoResolve(id, value) => ResolveKeeps(t, id, value);
        case DoFailAll(reason) => FailAllKeeps(t, reason);
      }
      RunKeeps(Apply(t, steps[0]), steps[1..]);
    }
  }

  /** The first response to a pending id decides its outcome; every later one changes nothing. */
  lemma {:induction false} FirstResponseWins<T>(t: Table<T>, id: string, first: T, steps: seq<Step<T>>, second: T)
    requires Consistent(t) && id in t.pending
    ensures
      var after := Run(AfterResolve(t, id, first), steps);
      (id, Resolved(first)) in after.settled && AfterResolve(after, id, second) == after
  {
    var t1 := AfterResolve(t, id, first);
    ResolveKeeps(t, id, first);
    RunKeeps(t1, steps);
    var after := Run(t1, steps);
    assert after.settled[|t.settled|] == (id, Resolved(first));
    assert SettledIds(after)[|t.settled|] == id;
  }
}
