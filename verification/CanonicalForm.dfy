/** deepSortKeys: the canonical form of nested JSON. */
module CanonicalForm {
  import opened Sorting

  /** Objects here are ordered: a field list stands for an object's own keys in enumeration order. */
  datatype Js =
    | Undefined
    | JNull
    | JBool(b: bool)
    | JNum(n: real)
    | JStr(s: string)
    | JArr(items: seq<Js>)
    | JObj(fields: seq<Field>)

  datatype Field = Field(key: string, value: Js)

  // ---- key order -------------------------------------------------------------------------------------

  /** Array.prototype.sort on strings: by code units. */
  predicate StringLeq(a: string, b: string) {
    a == "" || (b != "" && (a[0] < b[0] || (a[0] == b[0] && StringLeq(a[1..], b[1..]))))
  }

  function ByKey(): (Field, Field) -> bool { (x: Field, y: Field) => StringLeq(x.key, y.key) }

  /** A canonical numeral that counts as an array index: such keys are enumerated first, in numeric order. */
  predicate IsIndex(key: string) {
    && key != "" && (forall c | c in key :: '0' <= c <= '9') && (key[0] == '0' ==> key == "0")
    && (|key| < 10 || (|key| == 10 && StringLeq(key, "4294967294")))
  }

  function ByIndex(): (Field, Field) -> bool {
    (x: Field, y: Field) => |x.key| < |y.key| || (|x.key| == |y.key| && StringLeq(x.key, y.key))
  }

  function Indices(fields: seq<Field>): seq<Field> {
    if fields == [] then []
    else if IsIndex(fields[0].key) then [fields[0]] + Indices(fields[1..])
    else Indices(fields[1..])
  }

  function Names(fields: seq<Field>): seq<Field> {
    if fields == [] then []
    else if IsIndex(fields[0].key) then Names(fields[1..])
    else [fields[0]] + Names(fields[1..])
  }

  /** The own keys of an object filled in the given order, as JavaScript enumerates them. */
  function Enumerated(fields: seq<Field>): seq<Field> {
    Sort(ByIndex(), Indices(fields)) + Names(fields)
  }

  // ---- deepSortKeys -----------------------------------------------------------------------------------

  /** A null or undefined value is skipped; assigning `__proto__` makes no own key. */
  predicate Dropped(f: Field) {
    f.value.JNull? || f.value.Undefined? || f.key == "__proto__"
  }

  function Canonical(v: Js): Js
    decreases v
  {
    match v
    case JArr(items) => JArr(seq(|items|, i requires 0 <= i < |items| => Canonical(items[i])))
    case JObj(fields) => JObj(Enumerated(Sort(ByKey(), Shown(fields))))
    case _ => v
  }

  function Shown(fields: seq<Field>): seq<Field>
    decreases fields
  {
    if fields == [] then []
    else if Dropped(fields[0]) then Shown(fields[1..])
    else [Field(fields[0].key, Canonical(fields[0].value))] + Shown(fields[1..])
  }

  /** The function as written: sort the keys, then copy the values that are kept. */
  method DeepSortKeys(v: Js) returns (r: Js)
    ensures r == Canonical(v)
    decreases v
  {
    match v
    case JArr(items) =>
      var sorted := [];
      for i := 0 to |items|
        invariant |sorted| == i && forall k | 0 <= k < i :: sorted[k] == Canonical(items[k])
      {
        var item := DeepSortKeys(items[i]);
        sorted := sorted + [item];
      }
      assert sorted == Canonical(v).items;
      r := JArr(sorted);
    case JObj(fields) =>
      var keys := Sort(ByKey(), fields);
      SortElements(ByKey(), fields);
      var sorted := [];
      for i := 0 to |keys|
        invariant sorted == Shown(keys[..i])
      {
        assert keys[i] in fields;
        if !Dropped(keys[i]) {
          var value := DeepSortKeys(keys[i].value);
          sorted := sorted + [Field(keys[i].key, value)];
        }
        assert keys[..i + 1] == keys[..i] + [keys[i]];
        ShownAppend(keys[..i], keys[i]);
      }
      assert keys[..|keys|] == keys;
      KeyOrderTotal();
      ShownCommutes(fields);
      r := JObj(Enumerated(sorted));
    case _ => r := v;
  }

  lemma {:induction false} ShownAppend(fields: seq<Field>, f: Field)
    ensures Shown(fields + [f]) == Shown(fields) + if Dropped(f) then [] else [Field(f.key, Canonical(f.value))]
  {
    if fields != [] {
      assert (fields + [f])[1..] == fields[1..] + [f];
      ShownAppend(fields[1..], f);
    } else {
      assert ([] + [f])[1..] == [];
    }
  }

  lemma {:induction false} StringOrder(a: string, b: string, c: string)
    ensures StringLeq(a, b) || StringLeq(b, a)
    ensures StringLeq(a, b) && StringLeq(b, a) ==> a == b
    ensures StringLeq(a, b) && StringLeq(b, c) ==> StringLeq(a, c)
  {
    if a != "" && b != "" {
      StringOrder(a[1..], b[1..], if c == "" then "" else c[1..]);
      assert [a[0]] + a[1..] == a && [b[0]] + b[1..] == b;
    }
  }

  lemma {:induction false} KeyOrderTotal()
    ensures TotalPreorder(ByKey())
    ensures forall x: Field, y: Field :: ByKey()(x, y) && ByKey()(y, x) ==> x.key == y.key
  {
    forall x: Field, y: Field, z: Field
      ensures ByKey()(x, y) || ByKey()(y, x)
      ensures ByKey()(x, y) && ByKey()(y, x) ==> x.key == y.key
      ensures ByKey()(x, y) && ByKey()(y, z) ==> ByKey()(x, z)
    {
      StringOrder(x.key, y.key, z.key);
    }
  }

  lemma {:induction false} ShownBehind(f: Field, fields: seq<Field>)
    requires TotalPreorder(ByKey()) && Sorted(ByKey(), fields) && fields != [] && ByKey()(f, fields[0])
    ensures Shown(fields) != [] ==> ByKey()(f, Shown(fields)[0])
  {
    ShownKeys(fields);
    if Shown(fields) != [] {
      var i :| 0 <= i < |fields| && fields[i].key == Shown(fields)[0].key;
      assert i == 0 || ByKey()(fields[0], fields[i]);
      assert ByKey()(f, fields[i]);
    }
  }

  lemma {:induction false} ShownInsert(f: Field, fields: seq<Field>)
    requires TotalPreorder(ByKey()) && Sorted(ByKey(), fields)
    ensures Shown(Insert(ByKey(), f, fields)) ==
            if Dropped(f) then Shown(fields) else Insert(ByKey(), Field(f.key, Canonical(f.value)), Shown(fields))
  {
    if fields == [] || ByKey()(f, fields[0]) {
      assert ([f] + fields)[1..] == fields;
      if fields != [] { ShownBehind(f, fields); }
    } else {
      var rest := Insert(ByKey(), f, fields[1..]);
      assert ([fields[0]] + rest)[1..] == rest;
      ShownInsert(f, fields[1..]);
      if !Dropped(fields[0]) {
        assert Shown(fields)[1..] == Shown(fields[1..]);
      }
    }
  }

  lemma {:induction false} ShownKeys(fields: seq<Field>)
    ensures forall f | f in Shown(fields) :: exists i :: 0 <= i < |fields| && fields[i].key == f.key
  {
    if fields != [] {
      ShownKeys(fields[1..]);
      forall f | f in Shown(fields) ensures exists i :: 0 <= i < |fields| && fields[i].key == f.key {
        if f in Shown(fields[1..]) {
          var i :| 0 <= i < |fields[1..]| && fields[1..][i].key == f.key;
          assert fields[i + 1].key == f.key;
        } else {
          assert fields[0].key == f.key;
        }
      }
    }
  }

  lemma {:induction false} ShownCommutes(fields: seq<Field>)
    requires TotalPreorder(ByKey())
    ensures Shown(Sort(ByKey(), fields)) == Sort(ByKey(), Shown(fields))
  {
    if fields != [] {
      ShownCommutes(fields[1..]);
      SortSorted(ByKey(), fields[1..]);
      ShownInsert(fields[0], Sort(ByKey(), fields[1..]));
      if !Dropped(fields[0]) {
        assert Shown(fields)[1..] == Shown(fields[1..]);
      }
    }
  }
}
