/**
 What makes canonical JSON canonical (`json.dumps(..., sort_keys=True)` in
 app/services/master_sync.py): members come out sorted, so two values that differ only in the order
 in which their members were inserted are printed alike.
 */
module CanonicalOrder {
  import opened CanonicalJson
  import Text

  // ----- The order on keys -----

  lemma {:induction false} KeyLessIrreflexive(a: string)
    ensures !KeyLess(a, a)
  {
    if a != "" {
      KeyLessIrreflexive(a[1..]);
    }
  }

  lemma {:induction false} KeyLessTransitive(a: string, b: string, c: string)
    requires KeyLess(a, b) && KeyLess(b, c)
    ensures KeyLess(a, c)
  {
    if a != "" && a[0] == b[0] == c[0] {
      KeyLessTransitive(a[1..], b[1..], c[1..]);
    }
  }

  lemma {:induction false} KeyLessTotal(a: string, b: string)
    ensures KeyLess(a, b) || KeyLess(b, a) || a == b
  {
    if a != "" && b != "" && a[0] == b[0] {
      KeyLessTotal(a[1..], b[1..]);
      assert a == [a[0]] + a[1..] && b == [b[0]] + b[1..];
    }
  }

  // ----- Sorting sorts -----

  ghost predicate InOrder(fields: seq<Field>) {
    forall i, j :: 0 <= i < j < |fields| ==> !KeyLess(fields[j].key, fields[i].key)
  }

  lemma {:induction false} InsertElements(f: Field, sorted: seq<Field>)
    ensures forall x :: x in InsertField(f, sorted) <==> x == f || x in sorted
  {
    hide KeyLess;
    if sorted != [] && !KeyLess(f.key, sorted[0].key) {
      InsertElements(f, sorted[1..]);
      assert sorted == [sorted[0]] + sorted[1..];
    }
  }

  lemma {:induction false} InsertKeepsOrder(f: Field, sorted: seq<Field>)
    requires InOrder(sorted)
    ensures InOrder(InsertField(f, sorted))
  {
    hide KeyLess;
    var r := InsertField(f, sorted);
    if sorted == [] {
    } else if KeyLess(f.key, sorted[0].key) {
      forall j | 0 < j < |r|
        ensures !KeyLess(r[j].key, f.key)
      {
        LaterIsNotLess(f.key, sorted, j - 1);
      }
    } else {
      var rest := InsertField(f, sorted[1..]);
      InsertKeepsOrder(f, sorted[1..]);
      InsertElements(f, sorted[1..]);
      forall j | 0 < j < |r|
        ensures !KeyLess(r[j].key, sorted[0].key)
      {
        assert r[j] == rest[j - 1] && rest[j - 1] in rest;
        if rest[j - 1] in sorted[1..] {
          var k :| 0 <= k < |sorted[1..]| && sorted[1..][k] == rest[j - 1];
          assert sorted[k + 1] == r[j];
        }
      }
    }
  }

  lemma LaterIsNotLess(key: string, sorted: seq<Field>, j: nat)
    requires InOrder(sorted) && j < |sorted| && KeyLess(key, sorted[0].key)
    ensures !KeyLess(sorted[j].key, key)
  {
    hide KeyLess;
    if KeyLess(sorted[j].key, key) {
      KeyLessTransitive(sorted[j].key, key, sorted[0].key);
      KeyLessIrreflexive(sorted[0].key);
    }
  }

  /** The members come out in order of their keys, none lost and none made up. */
  lemma {:induction false} SortFieldsSorts(fields: seq<Field>)
    ensures InOrder(SortFields(fields))
    ensures forall x :: x in SortFields(fields) <==> x in fields
  {
    hide KeyLess, InOrder;
    if fields == [] {
      assert InOrder([]) by { NothingInOrder(); }
    } else {
      SortFieldsSorts(fields[1..]);
      InsertKeepsOrder(fields[0], SortFields(fields[1..]));
      InsertElements(fields[0], SortFields(fields[1..]));
      assert fields == [fields[0]] + fields[1..];
    }
  }

  lemma NothingInOrder()
    ensures InOrder([])
  {
  }

  // ----- The sorted list is determined by its elements -----

  ghost predicate DistinctFieldKeys(fields: seq<Field>) {
    forall i, j :: 0 <= i < j < |fields| ==> fields[i].key != fields[j].key
  }

  /** An element of another ordered list with the same elements is no smaller than the first. */
  lemma HeadIsLeast(a: seq<Field>, b: seq<Field>)
    requires InOrder(a) && InOrder(b) && a != [] && b != []
    requires forall x :: x in a <==> x in b
    ensures a[0].key == b[0].key
  {
    hide KeyLess;
    assert a[0] in b && b[0] in a;
    var i :| 0 <= i < |a| && a[i] == b[0];
    var j :| 0 <= j < |b| && b[j] == a[0];
    if i == 0 || j == 0 {
    } else {
      KeyLessTotal(a[0].key, b[0].key);
    }
  }

  lemma SameKeySameField(a: seq<Field>, x: Field, y: Field)
    requires DistinctFieldKeys(a) && x in a && y in a && x.key == y.key
    ensures x == y
  {
    var i :| 0 <= i < |a| && a[i] == x;
    var j :| 0 <= j < |a| && a[j] == y;
  }

  lemma SomeElement(fields: seq<Field>)
    ensures fields != [] ==> exists x :: x in fields
  {
    if fields != [] {
      assert fields[0] in fields;
    }
  }

  lemma {:induction false} OrderedUnique(a: seq<Field>, b: seq<Field>)
    requires InOrder(a) && InOrder(b) && DistinctFieldKeys(a) && DistinctFieldKeys(b)
    requires forall x :: x in a <==> x in b
    ensures a == b
    decreases |a|
  {
    if a == [] {
      SomeElement(b);
    } else {
      assert a[0] in b;
      HeadIsLeast(a, b);
      SameKeySameField(b, a[0], b[0]);
      TailsAgree(a, b);
      OrderedUnique(a[1..], b[1..]);
    }
  }

  lemma TailsAgree(a: seq<Field>, b: seq<Field>)
    requires DistinctFieldKeys(a) && DistinctFieldKeys(b) && a != [] && b != [] && a[0] == b[0]
    requires forall x :: x in a <==> x in b
    ensures forall x :: x in a[1..] <==> x in b[1..]
  {
    HeadNotInTail(a);
    HeadNotInTail(b);
    assert a == [a[0]] + a[1..] && b == [b[0]] + b[1..];
    forall x
      ensures x in a[1..] <==> x in b[1..]
    {
      assert x in a <==> x == a[0] || x in a[1..];
      assert x in b <==> x == b[0] || x in b[1..];
    }
  }

  lemma HeadNotInTail(a: seq<Field>)
    requires DistinctFieldKeys(a) && a != []
    ensures a[0] !in a[1..]
  {
    forall j | 0 <= j < |a[1..]|
      ensures a[1..][j] != a[0]
    {
      assert a[1..][j] == a[j + 1];
    }
  }

  lemma {:induction false} InsertKeepsDistinct(f: Field, sorted: seq<Field>)
    requires DistinctFieldKeys(sorted) && forall x <- sorted :: x.key != f.key
    ensures DistinctFieldKeys(InsertField(f, sorted))
  {
    hide KeyLess;
    if sorted != [] && !KeyLess(f.key, sorted[0].key) {
      assert forall x <- sorted[1..] :: x in sorted;
      InsertKeepsDistinct(f, sorted[1..]);
      InsertElements(f, sorted[1..]);
      var rest := InsertField(f, sorted[1..]);
      forall j | 0 <= j < |rest|
        ensures rest[j].key != sorted[0].key
      {
        assert rest[j] in rest;
      }
    }
  }

  lemma {:induction false} SortKeepsDistinct(fields: seq<Field>)
    requires DistinctFieldKeys(fields)
    ensures DistinctFieldKeys(SortFields(fields))
  {
    hide KeyLess;
    if fields != [] {
      SortKeepsDistinct(fields[1..]);
      SortFieldsSorts(fields[1..]);
      forall x | x in SortFields(fields[1..])
        ensures x.key != fields[0].key
      {
        var k :| 0 <= k < |fields[1..]| && fields[1..][k] == x;
        assert fields[k + 1] == x;
      }
      InsertKeepsDistinct(fields[0], SortFields(fields[1..]));
    }
  }

  /** Lists with the same fields, under different keys, sort alike. */
  lemma SortIgnoresOrder(a: seq<Field>, b: seq<Field>)
    requires DistinctFieldKeys(a) && DistinctFieldKeys(b) && forall x :: x in a <==> x in b
    ensures SortFields(a) == SortFields(b)
  {
    hide SortFields, InOrder, DistinctFieldKeys;
    SortFieldsSorts(a);
    SortFieldsSorts(b);
    SortKeepsDistinct(a);
    SortKeepsDistinct(b);
    OrderedUnique(SortFields(a), SortFields(b));
  }

  // ----- Values that differ only in insertion order -----

  ghost predicate DistinctKeys(members: seq<Member>) {
    forall i, j :: 0 <= i < j < |members| ==> members[i].key != members[j].key
  }

  /** The same value, but for the order in which members were inserted, at any depth. */
  ghost predicate Same(a: Json, b: Json)
    decreases a
  {
    match a
    case Arr(items) =>
      b.Arr? && |items| == |b.items| && forall i :: 0 <= i < |items| ==> Same(items[i], b.items[i])
    case Obj(members) =>
      b.Obj? && DistinctKeys(members) && DistinctKeys(b.members)
      && (forall m <- members :: HasPartner(m, b.members)) && (forall n <- b.members :: IsPartner(n, members))
    case _ => a == b
  }

  /** The same key has the same value there. */
  ghost predicate HasPartner(m: Member, others: seq<Member>)
    decreases m
  {
    exists n <- others :: n.key == m.key && Same(m.value, n.value)
  }

  ghost predicate IsPartner(n: Member, members: seq<Member>)
    decreases members
  {
    exists m <- members :: m.key == n.key && Same(m.value, n.value)
  }

  function FieldOf(m: Member): Field {
    Field(m.key, Print(m.value))
  }

  lemma {:induction false} PrintMembersAt(members: seq<Member>, i: nat)
    requires i < |members|
    ensures PrintMembers(members)[i] == FieldOf(members[i])
  {
    if i > 0 {
      PrintMembersAt(members[1..], i - 1);
    }
  }

  lemma PrintMembersDistinct(members: seq<Member>)
    requires DistinctKeys(members)
    ensures DistinctFieldKeys(PrintMembers(members))
  {
    hide Print, PrintMembers;
    forall i, j | 0 <= i < j < |members|
      ensures PrintMembers(members)[i].key != PrintMembers(members)[j].key
    {
      PrintMembersAt(members, i);
      PrintMembersAt(members, j);
    }
  }

  lemma FieldFromMember(members: seq<Member>, f: Field)
    ensures f in PrintMembers(members) <==> exists m <- members :: FieldOf(m) == f
  {
    hide Print, PrintMembers;
    var fields := PrintMembers(members);
    if f in fields {
      var i :| 0 <= i < |fields| && fields[i] == f;
      PrintMembersAt(members, i);
      assert members[i] in members;
    }
    if m :| m in members && FieldOf(m) == f {
      var i :| 0 <= i < |members| && members[i] == m;
      PrintMembersAt(members, i);
      assert fields[i] in fields;
    }
  }

  lemma {:induction false} PrintAllAt(items: seq<Json>, i: nat)
    requires i < |items|
    ensures PrintAll(items)[i] == Print(items[i])
  {
    if i > 0 {
      PrintAllAt(items[1..], i - 1);
    }
  }

  /** Printing forgets the order of insertion. */
  lemma {:induction false} PrintIgnoresOrder(a: Json, b: Json)
    requires Same(a, b)
    ensures Print(a) == Print(b)
    decreases a
  {
    hide SortFields, DistinctKeys;
    match a
    case Arr(items) =>
      forall i | 0 <= i < |items|
        ensures PrintAll(items)[i] == PrintAll(b.items)[i]
      {
        PrintAllAt(items, i);
        PrintAllAt(b.items, i);
        PrintIgnoresOrder(items[i], b.items[i]);
      }
      assert PrintAll(items) == PrintAll(b.items);
    case Obj(members) =>
      forall m <- members
        ensures PrintedThere(m, b.members)
      {
        assert HasPartner(m, b.members);
        var n :| n in b.members && n.key == m.key && Same(m.value, n.value);
        PrintIgnoresOrder(m.value, n.value);
        assert FieldOf(n) == FieldOf(m);
      }
      forall n <- b.members
        ensures PrintedThere(n, members)
      {
        assert IsPartner(n, members);
        var m :| m in members && m.key == n.key && Same(m.value, n.value);
        PrintIgnoresOrder(m.value, n.value);
        assert FieldOf(m) == FieldOf(n);
      }
      SameMembersPrintAlike(members, b.members);
    case _ =>
  }

  /** Some member there has this key and is printed alike. */
  ghost predicate PrintedThere(m: Member, others: seq<Member>) {
    exists n <- others :: FieldOf(n) == FieldOf(m)
  }

  ghost predicate PrintedIn(a: seq<Member>, b: seq<Member>) {
    forall m <- a :: PrintedThere(m, b)
  }

  lemma FieldsWithin(a: seq<Member>, b: seq<Member>, f: Field)
    requires PrintedIn(a, b) && f in PrintMembers(a)
    ensures f in PrintMembers(b)
  {
    hide Print, PrintMembers, FieldOf;
    FieldFromMember(a, f);
    FieldFromMember(b, f);
    var m :| m in a && FieldOf(m) == f;
    assert PrintedThere(m, b);
    var n :| n in b && FieldOf(n) == FieldOf(m);
  }

  lemma SameMembersPrintAlike(a: seq<Member>, b: seq<Member>)
    requires DistinctKeys(a) && DistinctKeys(b) && PrintedIn(a, b) && PrintedIn(b, a)
    ensures Print(Obj(a)) == Print(Obj(b))
  {
    hide *;
    PrintMembersDistinct(a);
    PrintMembersDistinct(b);
    forall f
      ensures f in PrintMembers(a) <==> f in PrintMembers(b)
    {
      if f in PrintMembers(a) {
        FieldsWithin(a, b, f);
      } else if f in PrintMembers(b) {
        FieldsWithin(b, a, f);
      }
    }
    SortIgnoresOrder(PrintMembers(a), PrintMembers(b));
    PrintObject(a);
    PrintObject(b);
  }

  lemma PrintObject(members: seq<Member>)
    ensures Print(Obj(members)) == ['{'] + Text.Join(RenderAll(SortFields(PrintMembers(members))), ',') + ['}']
  {
  }
}
