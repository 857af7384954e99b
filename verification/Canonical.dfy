/**
 The canonical text by which the journal compares payloads, and what its equality means: the same value up to
 the order of object fields at any depth. Keys are put in dictionary order, the order of their characters; any
 fixed order of keys would do.
 */
module Canonical {
  import opened Json

  // --- the order of keys ---

  /** Strings in dictionary order of their characters. */
  predicate Before(a: string, b: string) {
    if b == "" then false
    else if a == "" then true
    else a[0] < b[0] || (a[0] == b[0] && Before(a[1..], b[1..]))
  }

  lemma {:induction false} Total(a: string, b: string)
    ensures Before(a, b) || a == b || Before(b, a)
  {
    if a != "" && b != "" && a[0] == b[0] {
      Total(a[1..], b[1..]);
      assert a == [a[0]] + a[1..] && b == [b[0]] + b[1..];
    }
  }

  lemma {:induction false} Strict(a: string, b: string)
    requires Before(a, b)
    ensures a != b && !Before(b, a)
  {
    if a != "" && b != "" && a[0] == b[0] { Strict(a[1..], b[1..]); }
  }

  lemma {:induction false} Transitive(a: string, b: string, c: string)
    requires Before(a, b) && Before(b, c)
    ensures Before(a, c)
  {
    if a != "" && a[0] == b[0] && b[0] == c[0] { Transitive(a[1..], b[1..], c[1..]); }
  }

  // --- canonical text ---

  datatype Member = Member(key: string, text: string)

  function InsertMember(m: Member, sorted: seq<Member>): seq<Member> {
    if sorted == [] || Before(m.key, sorted[0].key) then [m] + sorted
    else [sorted[0]] + InsertMember(m, sorted[1..])
  }

  function SortMembers(ms: seq<Member>): seq<Member> {
    if ms == [] then [] else InsertMember(ms[0], SortMembers(ms[1..]))
  }

  function JoinMembers(ms: seq<Member>): string {
    if ms == [] then ""
    else Quote(ms[0].key) + ":" + ms[0].text + if |ms| == 1 then "" else "," + JoinMembers(ms[1..])
  }

  function Canonicalize(v: Value): string {
    match v
    case Arr(items) => "[" + CanonicalItems(items) + "]"
    case Obj(fields) => "{" + JoinMembers(SortMembers(Members(fields))) + "}"
    case _ => Stringify(v)
  }

  function CanonicalItems(items: seq<Value>): string {
    if items == [] then ""
    else Canonicalize(items[0]) + if |items| == 1 then "" else "," + CanonicalItems(items[1..])
  }

  function Members(fields: seq<Field>): seq<Member> {
    if fields == [] then [] else [Member(fields[0].key, Canonicalize(fields[0].value))] + Members(fields[1..])
  }

  predicate Equal(a: Value, b: Value) { Canonicalize(a) == Canonicalize(b) }

  // --- what it means ---

  /** The same value, but for the order of object fields at any depth. */
  ghost predicate Same(a: Value, b: Value) {
    match (a, b)
    case (Arr(xs), Arr(ys)) => |xs| == |ys| && forall k :: 0 <= k < |xs| ==> Same(xs[k], ys[k])
    case (Obj(fs), Obj(gs)) =>
      Keys(fs) == Keys(gs) && forall j, k :: 0 <= j < |fs| && 0 <= k < |gs| && fs[j].key == gs[k].key ==>
            Same(fs[j].value, gs[k].value)
    case _ => a == b
  }

  // --- the same value with its fields in order, at every depth ---

  function InsertField(f: Field, sorted: seq<Field>): seq<Field> {
    if sorted == [] || Before(f.key, sorted[0].key) then [f] + sorted
    else [sorted[0]] + InsertField(f, sorted[1..])
  }

  function SortFields(fs: seq<Field>): seq<Field> {
    if fs == [] then [] else InsertField(fs[0], SortFields(fs[1..]))
  }

  function Sorted(v: Value): Value {
    match v
    case Arr(items) => Arr(SortedItems(items))
    case Obj(fields) => Obj(SortFields(SortedValues(fields)))
    case _ => v
  }

  function SortedItems(items: seq<Value>): (r: seq<Value>)
    ensures |r| == |items| && forall k :: 0 <= k < |items| ==> r[k] == Sorted(items[k])
  {
    if items == [] then [] else [Sorted(items[0])] + SortedItems(items[1..])
  }

  function SortedValues(fields: seq<Field>): (r: seq<Field>)
    ensures |r| == |fields| && forall k :: 0 <= k < |fields| ==> r[k] == Field(fields[k].key, Sorted(fields[k].value))
  {
    if fields == [] then [] else [Field(fields[0].key, Sorted(fields[0].value))] + SortedValues(fields[1..])
  }

  function Texts(fs: seq<Field>): seq<Member> {
    if fs == [] then [] else [Member(fs[0].key, Stringify(fs[0].value))] + Texts(fs[1..])
  }

  lemma {:induction false} TextsOfInsert(f: Field, sorted: seq<Field>)
    ensures Texts(InsertField(f, sorted)) == InsertMember(Member(f.key, Stringify(f.value)), Texts(sorted))
  {
    if sorted == [] || Before(f.key, sorted[0].key) {
      assert ([f] + sorted)[1..] == sorted;
    } else {
      TextsOfInsert(f, sorted[1..]);
      assert ([sorted[0]] + InsertField(f, sorted[1..]))[1..] == InsertField(f, sorted[1..]);
    }
  }

  lemma {:induction false} TextsOfSort(fs: seq<Field>)
    ensures Texts(SortFields(fs)) == SortMembers(Texts(fs))
  {
    if fs != [] {
      TextsOfSort(fs[1..]);
      TextsOfInsert(fs[0], SortFields(fs[1..]));
    }
  }

  lemma {:induction false} JoinIsStringify(fs: seq<Field>)
    ensures JoinMembers(Texts(fs)) == StringifyFields(fs)
  {
    if fs != [] {
      JoinIsStringify(fs[1..]);
      assert Texts(fs)[1..] == Texts(fs[1..]);
      assert |fs| == 1 ==> Texts(fs[1..]) == [];
      TextsLength(fs);
    }
  }

  lemma {:induction false} TextsLength(fs: seq<Field>)
    ensures |Texts(fs)| == |fs|
  {
    if fs != [] { TextsLength(fs[1..]); }
  }

  /** Canonical text is the text of the value with its fields in order. */
  lemma {:induction false} CanonicalIsSorted(v: Value)
    ensures Canonicalize(v) == Stringify(Sorted(v))
    decreases v, 0
  {
    match v
    case Arr(items) => ItemsAreSorted(items);
    case Obj(fields) =>
      MembersAreSorted(fields);
      TextsOfSort(SortedValues(fields));
      JoinIsStringify(SortFields(SortedValues(fields)));
    case _ =>
  }

  lemma {:induction false} ItemsAreSorted(items: seq<Value>)
    ensures CanonicalItems(items) == StringifyItems(SortedItems(items))
    decreases items, 0
  {
    if items != [] {
      CanonicalIsSorted(items[0]);
      ItemsAreSorted(items[1..]);
      assert SortedItems(items)[1..] == SortedItems(items[1..]);
    }
  }

  lemma {:induction false} MembersAreSorted(fields: seq<Field>)
    ensures Members(fields) == Texts(SortedValues(fields))
    decreases fields, 0
  {
    if fields != [] {
      CanonicalIsSorted(fields[0].value);
      MembersAreSorted(fields[1..]);
      assert SortedValues(fields)[1..] == SortedValues(fields[1..]);
    }
  }

  // --- sorting ---

  predicate Ascending(fs: seq<Field>) { forall j, k :: 0 <= j < k < |fs| ==> Before(fs[j].key, fs[k].key) }

  lemma {:induction false} InsertContents(f: Field, sorted: seq<Field>)
    ensures forall g :: g in InsertField(f, sorted) <==> g == f || g in sorted
  {
    if sorted != [] && !Before(f.key, sorted[0].key) { InsertContents(f, sorted[1..]); }
  }

  lemma {:induction false} InsertAscends(f: Field, sorted: seq<Field>)
    requires Ascending(sorted) && forall k :: 0 <= k < |sorted| ==> sorted[k].key != f.key
    ensures Ascending(InsertField(f, sorted))
  {
    if sorted != [] {
      if Before(f.key, sorted[0].key) {
        forall k | 1 <= k < |sorted| ensures Before(f.key, sorted[k].key) {
          Transitive(f.key, sorted[0].key, sorted[k].key);
        }
      } else {
        Total(f.key, sorted[0].key);
        InsertAscends(f, sorted[1..]);
        InsertContents(f, sorted[1..]);
        var rest := InsertField(f, sorted[1..]);
        forall k | 0 <= k < |rest| ensures Before(sorted[0].key, rest[k].key) {
          assert rest[k] in rest;
          assert rest[k] == f || rest[k] in sorted[1..];
        }
      }
    }
  }

  lemma {:induction false} SortContents(fs: seq<Field>)
    ensures forall g :: g in SortFields(fs) <==> g in fs
  {
    if fs != [] {
      SortContents(fs[1..]);
      InsertContents(fs[0], SortFields(fs[1..]));
    }
  }

  lemma {:induction false} SortAscends(fs: seq<Field>)
    requires Distinct(fs)
    ensures Ascending(SortFields(fs))
  {
    if fs != [] {
      SortAscends(fs[1..]);
      SortContents(fs[1..]);
      var rest := SortFields(fs[1..]);
      forall k | 0 <= k < |rest| ensures rest[k].key != fs[0].key { assert rest[k] in fs[1..]; }
      InsertAscends(fs[0], rest);
    }
  }

  lemma AscendingIsDistinct(fs: seq<Field>)
    requires Ascending(fs)
    ensures Distinct(fs)
  {
    forall j, k | 0 <= j < k < |fs| ensures fs[j].key != fs[k].key { Strict(fs[j].key, fs[k].key); }
  }

  lemma NonEmpty(fs: seq<Field>, gs: seq<Field>)
    requires gs != [] && forall g :: g in gs ==> g in fs
    ensures fs != []
  {
    assert gs[0] in fs;
  }

  /** Two ascending sequences with the same fields are the same sequence. */
  lemma {:induction false} AscendingIsUnique(fs: seq<Field>, gs: seq<Field>)
    requires Ascending(fs) && Ascending(gs) && forall f :: f in fs <==> f in gs
    ensures fs == gs
  {
    if gs != [] { NonEmpty(fs, gs); }
    if fs != [] {
      assert fs[0] in gs && gs[0] in fs;
      LeastFirst(fs, gs[0]);
      LeastFirst(gs, fs[0]);
      if fs[0] != gs[0] { Strict(fs[0].key, gs[0].key); }
      TailContents(fs);
      TailContents(gs);
      AscendingIsUnique(fs[1..], gs[1..]);
    }
  }

  lemma LeastFirst(fs: seq<Field>, f: Field)
    requires Ascending(fs) && f in fs
    ensures f == fs[0] || Before(fs[0].key, f.key)
  {
  }

  lemma TailContents(fs: seq<Field>)
    requires Ascending(fs) && fs != []
    ensures forall f :: f in fs[1..] <==> f in fs && f != fs[0]
  {
    AscendingIsDistinct(fs);
    assert fs == [fs[0]] + fs[1..];
  }

  // --- sorted values are equal exactly for values that are the same ---

  lemma {:induction false} SortedIsValid(v: Value)
    requires Valid(v)
    ensures Valid(Sorted(v))
    decreases v
  {
    match v
    case Arr(items) =>
      forall k | 0 <= k < |items| ensures Valid(SortedItems(items)[k]) { SortedIsValid(items[k]); }
    case Obj(fields) =>
      var values := SortedValues(fields);
      forall k | 0 <= k < |fields| ensures Valid(values[k].value) { SortedIsValid(fields[k].value); }
      SortAscends(values);
      AscendingIsDistinct(SortFields(values));
      SortContents(values);
      forall k | 0 <= k < |SortFields(values)| ensures Valid(SortFields(values)[k].value) {
        assert SortFields(values)[k] in values;
      }
    case _ =>
  }

  lemma {:induction false} SortedSame(a: Value, b: Value)
    requires Valid(a) && Valid(b) && Sorted(a) == Sorted(b)
    ensures Same(a, b)
    decreases a
  {
    match (a, b)
    case (Arr(xs), Arr(ys)) =>
      forall k | 0 <= k < |xs| ensures Same(xs[k], ys[k]) {
        assert SortedItems(xs)[k] == SortedItems(ys)[k];
        SortedSame(xs[k], ys[k]);
      }
    case (Obj(fs), Obj(gs)) =>
      SameContentsKeys(fs, gs);
      SameContentsKeys(gs, fs);
      forall j, k | 0 <= j < |fs| && 0 <= k < |gs| && fs[j].key == gs[k].key ensures Same(fs[j].value, gs[k].value) {
        SortedFieldSame(fs, j, gs, k);
        SortedSame(fs[j].value, gs[k].value);
      }
    case _ =>
  }

  lemma SortedSameContents(us: seq<Field>, vs: seq<Field>)
    requires SortFields(us) == SortFields(vs)
    ensures forall f :: f in us ==> f in vs
  {
    SortContents(us);
    SortContents(vs);
  }

  lemma SameContentsKeys(fs: seq<Field>, gs: seq<Field>)
    requires SortFields(SortedValues(fs)) == SortFields(SortedValues(gs))
    ensures Keys(fs) <= Keys(gs)
  {
    SortedSameContents(SortedValues(fs), SortedValues(gs));
    KeysOfValues(fs, SortedValues(fs));
    KeysOfValues(gs, SortedValues(gs));
    KeysOfSame(SortedValues(fs), SortedValues(gs));
  }

  lemma SortedFieldSame(fs: seq<Field>, j: nat, gs: seq<Field>, k: nat)
    requires Distinct(gs) && j < |fs| && k < |gs| && fs[j].key == gs[k].key
    requires SortFields(SortedValues(fs)) == SortFields(SortedValues(gs))
    ensures Sorted(fs[j].value) == Sorted(gs[k].value)
  {
    SortedSameContents(SortedValues(fs), SortedValues(gs));
    assert SortedValues(fs)[j] in SortedValues(gs);
    OnlyField(SortedValues(fs)[j], gs, k);
  }

  lemma OnlyField(u: Field, gs: seq<Field>, k: nat)
    requires Distinct(gs) && k < |gs| && u.key == gs[k].key && u in SortedValues(gs)
    ensures u.value == Sorted(gs[k].value)
  {
    var m :| 0 <= m < |gs| && SortedValues(gs)[m] == u;
    assert gs[m].key == gs[k].key;
  }

  lemma KeysOfSame(us: seq<Field>, vs: seq<Field>)
    requires forall f :: f in us ==> f in vs
    ensures Keys(us) <= Keys(vs)
  {
    forall key | key in Keys(us) ensures key in Keys(vs) {
      var u :| u in us && u.key == key;
      assert u in vs;
    }
  }

  lemma KeysOfValues(fs: seq<Field>, us: seq<Field>)
    requires |us| == |fs| && forall k :: 0 <= k < |fs| ==> us[k].key == fs[k].key
    ensures Keys(us) == Keys(fs)
  {
    forall key | key in Keys(us) ensures key in Keys(fs) {
      var k :| 0 <= k < |us| && us[k].key == key;
      assert fs[k] in fs;
    }
    forall key | key in Keys(fs) ensures key in Keys(us) {
      var k :| 0 <= k < |fs| && fs[k].key == key;
      assert us[k] in us;
    }
  }

  lemma {:induction false} SameSorted(a: Value, b: Value)
    requires Valid(a) && Valid(b) && Same(a, b)
    ensures Sorted(a) == Sorted(b)
    decreases a
  {
    match (a, b)
    case (Arr(xs), Arr(ys)) =>
      forall k | 0 <= k < |xs| ensures SortedItems(xs)[k] == SortedItems(ys)[k] { SameSorted(xs[k], ys[k]); }
      assert SortedItems(xs) == SortedItems(ys);
    case (Obj(fs), Obj(gs)) =>
      forall j, k | 0 <= j < |fs| && 0 <= k < |gs| && fs[j].key == gs[k].key
          ensures Sorted(fs[j].value) == Sorted(gs[k].value) {
        SameSorted(fs[j].value, gs[k].value);
      }
      SameFieldsSorted(fs, gs);
    case _ =>
  }

  lemma SameFieldsSorted(fs: seq<Field>, gs: seq<Field>)
    requires Distinct(fs) && Distinct(gs) && Keys(fs) == Keys(gs)
    requires forall j, k :: 0 <= j < |fs| && 0 <= k < |gs| && fs[j].key == gs[k].key ==>
               Sorted(fs[j].value) == Sorted(gs[k].value)
    ensures SortFields(SortedValues(fs)) == SortFields(SortedValues(gs))
  {
    var us, vs := SortedValues(fs), SortedValues(gs);
    Covers(fs, gs);
    Covers(gs, fs);
    SortContents(us);
    SortContents(vs);
    SortAscends(us);
    SortAscends(vs);
    AscendingIsUnique(SortFields(us), SortFields(vs));
  }

  lemma Covers(fs: seq<Field>, gs: seq<Field>)
    requires Keys(fs) <= Keys(gs)
    requires forall j, k :: 0 <= j < |fs| && 0 <= k < |gs| && fs[j].key == gs[k].key ==>
               Sorted(fs[j].value) == Sorted(gs[k].value)
    ensures forall u :: u in SortedValues(fs) ==> u in SortedValues(gs)
  {
    forall u | u in SortedValues(fs) ensures u in SortedValues(gs) {
      var j :| 0 <= j < |fs| && SortedValues(fs)[j] == u;
      assert fs[j] in fs && fs[j].key in Keys(gs);
      var g :| g in gs && g.key == fs[j].key;
      var k :| 0 <= k < |gs| && gs[k] == g;
      assert SortedValues(gs)[k] == u;
    }
  }

  /** Two payloads have equal canonical text exactly if they are the same value up to the order of object fields. */
  lemma EqualIsSame(a: Value, b: Value)
    requires Valid(a) && Valid(b)
    ensures Equal(a, b) <==> Same(a, b)
  {
    CanonicalIsSorted(a);
    CanonicalIsSorted(b);
    if Equal(a, b) {
      SortedIsValid(a);
      SortedIsValid(b);
      RoundTrip(Sorted(a));
      RoundTrip(Sorted(b));
      SortedSame(a, b);
    }
    if Same(a, b) { SameSorted(a, b); }
  }
}
