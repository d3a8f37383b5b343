/**
 deepSortKeys decides equality up to key order and absent values, and is idempotent: the two
 facts on which the comparison of draft and server state rests.
 */
module CanonicalProofs {
  import opened Sorting
  import opened CanonicalForm

  /** An object holds a key once. */
  predicate DistinctKeys(fields: seq<Field>) {
    forall i, j | 0 <= i < j < |fields| :: fields[i].key != fields[j].key
  }

  predicate WellFormed(v: Js) {
    match v
    case JArr(items) => forall x | x in items :: WellFormed(x)
    case JObj(fields) => DistinctKeys(fields) && forall f | f in fields :: WellFormed(f.value)
    case _ => true
  }

  /** The field carries a value: neither null nor undefined, under a key an object can own by assignment. */
  predicate Carries(f: Field) { !f.value.JNull? && !f.value.Undefined? && f.key != "__proto__" }

  /**
   Equal for the purpose of a diff, stated without sorting: objects agree on which keys carry
   a value and on those values; arrays agree element by element, nulls included.
   */
  predicate Same(a: Js, b: Js)
    decreases a
  {
    match (a, b)
    case (JArr(x), JArr(y)) => |x| == |y| && forall i | 0 <= i < |x| :: Same(x[i], y[i])
    case (JObj(x), JObj(y)) =>
      && (forall i | 0 <= i < |x| && Carries(x[i]) :: Matched(x[i], y))
      && (forall j | 0 <= j < |y| && Carries(y[j]) :: HasKey(x, y[j].key))
    case (JArr(_), _) => false
    case (JObj(_), _) => false
    case _ => a == b
  }

  /** y carries a value under the key of f, and the same one. */
  predicate Matched(f: Field, y: seq<Field>)
    decreases f
  {
    exists j | 0 <= j < |y| && Carries(y[j]) && y[j].key == f.key :: Same(f.value, y[j].value)
  }

  /** x carries a value under the key. */
  predicate HasKey(x: seq<Field>, key: string) {
    exists i | 0 <= i < |x| :: Carries(x[i]) && x[i].key == key
  }

  // ---- fields as sets --------------------------------------------------------------------------------

  ghost predicate SameFields(a: seq<Field>, b: seq<Field>) { forall f :: f in a <==> f in b }

  lemma {:induction false} ShownOrigin(fields: seq<Field>, f: Field) returns (i: nat)
    requires f in Shown(fields)
    ensures i < |fields| && Carries(fields[i]) && f == Field(fields[i].key, Canonical(fields[i].value))
  {
    if Carries(fields[0]) && f == Field(fields[0].key, Canonical(fields[0].value)) {
      i := 0;
    } else {
      i := ShownOrigin(fields[1..], f);
      i := i + 1;
    }
  }

  lemma {:induction false} ShownMember(fields: seq<Field>, i: nat)
    requires i < |fields| && Carries(fields[i])
    ensures Field(fields[i].key, Canonical(fields[i].value)) in Shown(fields)
  {
    if i > 0 { ShownMember(fields[1..], i - 1); }
  }

  lemma {:induction false} ShownDistinct(fields: seq<Field>)
    requires DistinctKeys(fields)
    ensures DistinctKeys(Shown(fields))
  {
    if fields != [] {
      ShownDistinct(fields[1..]);
      ShownKeys(fields[1..]);
      forall f | f in Shown(fields[1..]) ensures f.key != fields[0].key {
        var i :| 0 <= i < |fields[1..]| && fields[1..][i].key == f.key;
        assert fields[i + 1].key == f.key;
      }
    }
  }

  lemma {:induction false} InsertDistinct(leq: (Field, Field) -> bool, f: Field, fields: seq<Field>)
    requires DistinctKeys(fields) && forall g | g in fields :: g.key != f.key
    ensures DistinctKeys(Insert(leq, f, fields))
  {
    if fields != [] && !leq(f, fields[0]) {
      InsertDistinct(leq, f, fields[1..]);
      InsertPermutes(leq, f, fields[1..]);
      var rest := Insert(leq, f, fields[1..]);
      forall g | g in rest ensures g.key != fields[0].key {
        assert g in multiset(rest);
        if g != f { assert g in fields[1..]; }
      }
    }
  }

  lemma {:induction false} SortDistinct(leq: (Field, Field) -> bool, fields: seq<Field>)
    requires DistinctKeys(fields)
    ensures DistinctKeys(Sort(leq, fields)) && SameFields(Sort(leq, fields), fields)
  {
    SortElements(leq, fields);
    if fields != [] {
      SortDistinct(leq, fields[1..]);
      InsertDistinct(leq, fields[0], Sort(leq, fields[1..]));
    }
  }

  lemma {:induction false} PartsOf(fields: seq<Field>)
    ensures forall f :: f in Indices(fields) <==> f in fields && IsIndex(f.key)
    ensures forall f :: f in Names(fields) <==> f in fields && !IsIndex(f.key)
  {
    if fields != [] {
      PartsOf(fields[1..]);
      assert fields == [fields[0]] + fields[1..];
    }
  }

  lemma {:induction false} PartsDistinct(fields: seq<Field>)
    requires DistinctKeys(fields)
    ensures DistinctKeys(Indices(fields)) && DistinctKeys(Names(fields))
  {
    if fields != [] {
      PartsDistinct(fields[1..]);
      PartsOf(fields[1..]);
      assert forall f | f in fields[1..] :: f.key != fields[0].key;
    }
  }

  /** Enumeration only rearranges. */
  lemma {:induction false} EnumeratedDistinct(fields: seq<Field>)
    requires DistinctKeys(fields)
    ensures DistinctKeys(Enumerated(fields)) && SameFields(Enumerated(fields), fields)
  {
    PartsOf(fields);
    PartsDistinct(fields);
    SortDistinct(ByIndex(), Indices(fields));
    var indices, names := Sort(ByIndex(), Indices(fields)), Names(fields);
    forall i, j | 0 <= i < |indices| && 0 <= j < |names| ensures indices[i].key != names[j].key {
      assert indices[i] in indices && names[j] in names;
    }
  }

  lemma {:induction false} OneTie(f: Field, fields: seq<Field>)
    requires DistinctKeys(fields) && TotalPreorder(ByKey())
    requires forall x: Field, y: Field :: ByKey()(x, y) && ByKey()(y, x) ==> x.key == y.key
    ensures |Ties(ByKey(), f, fields)| <= 1
  {
    if fields != [] {
      OneTie(f, fields[1..]);
      TiesMember(ByKey(), f, fields[1..]);
      var rest := Ties(ByKey(), f, fields[1..]);
      assert forall g | g in rest :: g in fields[1..] && g.key == f.key;
      assert forall g | g in fields[1..] :: g.key != fields[0].key;
      assert rest != [] ==> rest[0] in rest;
    }
  }

  /** Sorting by key forgets how the fields were arranged. */
  lemma {:induction false} SortForgetsOrder(a: seq<Field>, b: seq<Field>)
    requires DistinctKeys(a) && DistinctKeys(b) && SameFields(a, b)
    ensures Sort(ByKey(), a) == Sort(ByKey(), b)
  {
    KeyOrderTotal();
    var leq := ByKey();
    SortSorted(leq, a);
    SortSorted(leq, b);
    SortDistinct(leq, a);
    SortDistinct(leq, b);
    forall f ensures Ties(leq, f, Sort(leq, a)) == Ties(leq, f, Sort(leq, b)) {
      OneTie(f, Sort(leq, a));
      OneTie(f, Sort(leq, b));
      TiesMember(leq, f, Sort(leq, a));
      TiesMember(leq, f, Sort(leq, b));
      TiesAgree(Ties(leq, f, Sort(leq, a)), Ties(leq, f, Sort(leq, b)));
    }
    SortUnique(leq, Sort(leq, a), Sort(leq, b));
  }

  lemma {:induction false} TiesAgree(a: seq<Field>, b: seq<Field>)
    requires |a| <= 1 && |b| <= 1 && SameFields(a, b)
    ensures a == b
  {
    if a != [] { assert a[0] in b; }
    if b != [] { assert b[0] in a; }
  }

  lemma {:induction false} CanonicalFields(fields: seq<Field>)
    requires DistinctKeys(fields)
    ensures DistinctKeys(Canonical(JObj(fields)).fields) && SameFields(Canonical(JObj(fields)).fields, Shown(fields))
  {
    ShownDistinct(fields);
    SortDistinct(ByKey(), Shown(fields));
    EnumeratedDistinct(Sort(ByKey(), Shown(fields)));
  }

  // ---- the canonical form ------------------------------------------------------------------------------

  lemma {:induction false} SameShownThere(x: seq<Field>, y: seq<Field>, f: Field)
    requires Same(JObj(x), JObj(y)) && f in Shown(x)
    requires forall i, j | 0 <= i < |x| && 0 <= j < |y| && Same(x[i].value, y[j].value) ::
               Canonical(x[i].value) == Canonical(y[j].value)
    ensures f in Shown(y)
  {
    var i := ShownOrigin(x, f);
    assert Matched(x[i], y);
    var j :| 0 <= j < |y| && Carries(y[j]) && y[j].key == x[i].key && Same(x[i].value, y[j].value);
    ShownMember(y, j);
  }

  lemma {:induction false} SameShownBack(x: seq<Field>, y: seq<Field>, f: Field)
    requires Same(JObj(x), JObj(y)) && DistinctKeys(y) && f in Shown(y)
    requires forall i, j | 0 <= i < |x| && 0 <= j < |y| && Same(x[i].value, y[j].value) ::
               Canonical(x[i].value) == Canonical(y[j].value)
    ensures f in Shown(x)
  {
    var j := ShownOrigin(y, f);
    assert HasKey(x, y[j].key);
    var i :| 0 <= i < |x| && Carries(x[i]) && x[i].key == y[j].key;
    assert Matched(x[i], y);
    var k :| 0 <= k < |y| && Carries(y[k]) && y[k].key == x[i].key && Same(x[i].value, y[k].value);
    assert k == j;
    ShownMember(x, i);
  }

  lemma {:induction false} SameGivesEqual(a: Js, b: Js)
    requires WellFormed(a) && WellFormed(b) && Same(a, b)
    ensures Canonical(a) == Canonical(b)
    decreases a
  {
    match (a, b)
    case (JArr(x), JArr(y)) =>
      forall i | 0 <= i < |x| ensures Canonical(x[i]) == Canonical(y[i]) { SameGivesEqual(x[i], y[i]); }
    case (JObj(x), JObj(y)) =>
      forall i, j | 0 <= i < |x| && 0 <= j < |y| && Same(x[i].value, y[j].value)
        ensures Canonical(x[i].value) == Canonical(y[j].value)
      {
        assert x[i] in x && y[j] in y;
        SameGivesEqual(x[i].value, y[j].value);
      }
      forall f ensures f in Shown(x) <==> f in Shown(y) {
        if f in Shown(x) { SameShownThere(x, y, f); }
        if f in Shown(y) { SameShownBack(x, y, f); }
      }
      ShownDistinct(x);
      ShownDistinct(y);
      SortForgetsOrder(Shown(x), Shown(y));
    case _ =>
  }

  lemma {:induction false} EqualShown(x: seq<Field>, y: seq<Field>)
    requires SameFields(Shown(x), Shown(y))
    requires forall i, j | 0 <= i < |x| && 0 <= j < |y| && Canonical(x[i].value) == Canonical(y[j].value) ::
               Same(x[i].value, y[j].value)
    ensures Same(JObj(x), JObj(y))
  {
    forall i | 0 <= i < |x| && Carries(x[i]) ensures Matched(x[i], y) {
      ShownMember(x, i);
      var j := ShownOrigin(y, Field(x[i].key, Canonical(x[i].value)));
      assert Same(x[i].value, y[j].value);
    }
    forall j | 0 <= j < |y| && Carries(y[j]) ensures HasKey(x, y[j].key) {
      ShownMember(y, j);
      var i := ShownOrigin(x, Field(y[j].key, Canonical(y[j].value)));
    }
  }

  lemma {:induction false} EqualGivesSame(a: Js, b: Js)
    requires WellFormed(a) && WellFormed(b) && Canonical(a) == Canonical(b)
    ensures Same(a, b)
    decreases a
  {
    match (a, b)
    case (JArr(x), JArr(y)) =>
      assert |Canonical(a).items| == |x| && |Canonical(b).items| == |y|;
      forall i | 0 <= i < |x| ensures Same(x[i], y[i]) {
        assert Canonical(a).items[i] == Canonical(x[i]) && Canonical(b).items[i] == Canonical(y[i]);
        EqualGivesSame(x[i], y[i]);
      }
    case (JObj(x), JObj(y)) =>
      CanonicalFields(x);
      CanonicalFields(y);
      forall i, j | 0 <= i < |x| && 0 <= j < |y| && Canonical(x[i].value) == Canonical(y[j].value)
        ensures Same(x[i].value, y[j].value)
      {
        assert x[i] in x && y[j] in y;
        EqualGivesSame(x[i].value, y[j].value);
      }
      EqualShown(x, y);
    case _ =>
  }

  /** Two values have equal images exactly when they are the same up to key order and absent values. */
  lemma {:induction false} CanonicalIffSame(a: Js, b: Js)
    requires WellFormed(a) && WellFormed(b)
    ensures Canonical(a) == Canonical(b) <==> Same(a, b)
  {
    if Same(a, b) { SameGivesEqual(a, b); }
    if Canonical(a) == Canonical(b) { EqualGivesSame(a, b); }
  }

  lemma {:induction false} CanonicalWellFormed(v: Js)
    requires WellFormed(v)
    ensures WellFormed(Canonical(v))
    decreases v
  {
    match v
    case JArr(items) =>
      forall x | x in Canonical(v).items ensures WellFormed(x) {
        var i :| 0 <= i < |items| && x == Canonical(items[i]);
        CanonicalWellFormed(items[i]);
      }
    case JObj(fields) =>
      CanonicalFields(fields);
      forall f | f in Canonical(v).fields ensures WellFormed(f.value) {
        var i := ShownOrigin(fields, f);
        CanonicalWellFormed(fields[i].value);
      }
    case _ =>
  }

  lemma {:induction false} SameAsCanonical(v: Js)
    requires WellFormed(v)
    ensures Same(v, Canonical(v))
    decreases v
  {
    match v
    case JArr(items) =>
      forall i | 0 <= i < |items| ensures Same(items[i], Canonical(items[i])) { SameAsCanonical(items[i]); }
    case JObj(fields) =>
      var y := Canonical(v).fields;
      CanonicalFields(fields);
      forall i | 0 <= i < |fields| && Carries(fields[i]) ensures Matched(fields[i], y) {
        ShownMember(fields, i);
        var j :| 0 <= j < |y| && y[j] == Field(fields[i].key, Canonical(fields[i].value));
        SameAsCanonical(fields[i].value);
      }
      forall j | 0 <= j < |y| && Carries(y[j]) ensures HasKey(fields, y[j].key) {
        var i := ShownOrigin(fields, y[j]);
      }
    case _ =>
  }

  /** Applying it twice changes nothing. */
  lemma {:induction false} CanonicalTwice(v: Js)
    requires WellFormed(v)
    ensures Canonical(Canonical(v)) == Canonical(v)
  {
    CanonicalWellFormed(v);
    SameAsCanonical(v);
    SameGivesEqual(v, Canonical(v));
  }

  // ---- the order of the keys ------------------------------------------------------------------------------

  lemma {:induction false} IndexOrderTotal()
    ensures TotalPreorder(ByIndex())
  {
    forall x: Field, y: Field, z: Field
      ensures ByIndex()(x, y) || ByIndex()(y, x)
      ensures ByIndex()(x, y) && ByIndex()(y, z) ==> ByIndex()(x, z)
    {
      StringOrder(x.key, y.key, z.key);
    }
  }

  lemma {:induction false} NamesSorted(fields: seq<Field>)
    requires Sorted(ByKey(), fields)
    ensures Sorted(ByKey(), Names(fields))
  {
    if fields != [] {
      NamesSorted(fields[1..]);
      PartsOf(fields[1..]);
      forall f | f in Names(fields[1..]) ensures ByKey()(fields[0], f) {
        var i :| 0 <= i < |fields[1..]| && fields[1..][i] == f;
        assert ByKey()(fields[0], fields[i + 1]);
      }
    }
  }

  /** The keys of the canonical form: array indices first, in numeric order, then names, by code units. */
  lemma {:induction false} KeysAreSorted(fields: seq<Field>) returns (n: nat)
    ensures
      var sorted := Canonical(JObj(fields)).fields;
      && n <= |sorted|
      && (forall i | 0 <= i < |sorted| :: IsIndex(sorted[i].key) <==> i < n)
      && (forall i, j | 0 <= i < j < n :: ByIndex()(sorted[i], sorted[j]))
      && (forall i, j | n <= i < j < |sorted| :: StringLeq(sorted[i].key, sorted[j].key))
  {
    var ordered := Sort(ByKey(), Shown(fields));
    var indices, names := Sort(ByIndex(), Indices(ordered)), Names(ordered);
    KeyOrderTotal();
    IndexOrderTotal();
    SortSorted(ByKey(), Shown(fields));
    SortSorted(ByIndex(), Indices(ordered));
    SortElements(ByIndex(), Indices(ordered));
    NamesSorted(ordered);
    PartsOf(ordered);
    n := |indices|;
    var sorted := indices + names;
    assert Canonical(JObj(fields)).fields == sorted;
    forall i | 0 <= i < |sorted| ensures IsIndex(sorted[i].key) <==> i < n {
      if i < n { assert indices[i] in indices; } else { assert names[i - n] in names; }
    }
    forall i, j | n <= i < j < |sorted| ensures StringLeq(sorted[i].key, sorted[j].key) {
      assert ByKey()(names[i - n], names[j - n]);
    }
  }
}
