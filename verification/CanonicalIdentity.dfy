/**
 Canonical JSON identifies what it was made from: two values are printed alike exactly when they are the same but
 for the order in which members were inserted. So comparing digests (app/services/master_sync.py:1104-1111)
 compares contents.
 */
module CanonicalIdentity {
  import opened CanonicalJson
  import opened CanonicalOrder
  import opened JsonReader
  import opened Inbox

  // ----- A value and its canonical form -----

  lemma {:induction false} InsertMemberElements(m: Member, sorted: seq<Member>)
    ensures forall x :: x in InsertMember(m, sorted) <==> x == m || x in sorted
  {
    hide KeyLess;
    if sorted != [] && !KeyLess(m.key, sorted[0].key) {
      InsertMemberElements(m, sorted[1..]);
      assert sorted == [sorted[0]] + sorted[1..];
    }
  }

  lemma {:induction false} SortMembersElements(members: seq<Member>)
    ensures forall x :: x in SortMembers(members) <==> x in members
  {
    hide InsertMember;
    if members != [] {
      SortMembersElements(members[1..]);
      InsertMemberElements(members[0], SortMembers(members[1..]));
      assert members == [members[0]] + members[1..];
    }
  }

  lemma {:induction false} InsertMemberDistinct(m: Member, sorted: seq<Member>)
    requires DistinctKeys(sorted) && forall x <- sorted :: x.key != m.key
    ensures DistinctKeys(InsertMember(m, sorted))
  {
    hide KeyLess;
    if sorted != [] && !KeyLess(m.key, sorted[0].key) {
      assert forall x <- sorted[1..] :: x in sorted;
      InsertMemberDistinct(m, sorted[1..]);
      InsertMemberElements(m, sorted[1..]);
      var rest := InsertMember(m, sorted[1..]);
      forall j | 0 <= j < |rest|
        ensures rest[j].key != sorted[0].key
      {
        assert rest[j] in rest;
      }
    }
  }

  lemma {:induction false} SortMembersDistinct(members: seq<Member>)
    requires DistinctKeys(members)
    ensures DistinctKeys(SortMembers(members))
  {
    hide InsertMember;
    if members != [] {
      SortMembersDistinct(members[1..]);
      SortMembersElements(members[1..]);
      forall x | x in SortMembers(members[1..])
        ensures x.key != members[0].key
      {
        var k :| 0 <= k < |members[1..]| && members[1..][k] == x;
        assert members[k + 1] == x;
      }
      InsertMemberDistinct(members[0], SortMembers(members[1..]));
    }
  }

  lemma CanonicalMemberIn(members: seq<Member>)
    ensures forall m <- members :: CanonicalMember(m) in CanonicalMembers(members)
    ensures forall c <- CanonicalMembers(members) :: exists m <- members :: CanonicalMember(m) == c
  {
    hide CanonicalMembers, CanonicalMember;
    CanonicalMemberAt(members);
    var all := CanonicalMembers(members);
    forall i | 0 <= i < |members|
      ensures CanonicalMember(members[i]) in all && exists m <- members :: CanonicalMember(m) == all[i]
    {
      assert all[i] == CanonicalMember(members[i]) && members[i] in members;
    }
  }

  lemma {:induction false} CanonicalAllAt(items: seq<Json>)
    ensures forall i :: 0 <= i < |items| ==> CanonicalAll(items)[i] == Canonical(items[i])
    decreases |items|
  {
    hide Canonical;
    if items != [] {
      CanonicalAllAt(items[1..]);
    }
  }

  /** A dictionary's members, and theirs, have different keys: what makes a value the same as itself. */
  ghost predicate WellKeyed(v: Json)
    decreases v
  {
    match v
    case Arr(items) => forall x <- items :: WellKeyed(x)
    case Obj(members) => DistinctKeys(members) && forall m <- members :: WellKeyed(m.value)
    case _ => true
  }

  /** A value is the same as its canonical form. */
  lemma {:induction false} CanonicalIsSame(v: Json)
    requires WellKeyed(v)
    ensures Same(v, Canonical(v))
    decreases v
  {
    hide DistinctKeys, SortMembers;
    match v
    case Arr(items) =>
      CanonicalAllAt(items);
      forall i | 0 <= i < |items|
        ensures Same(items[i], CanonicalAll(items)[i])
      {
        CanonicalIsSame(items[i]);
      }
    case Obj(members) =>
      forall m <- members
        ensures Same(m.value, Canonical(m.value))
      {
        CanonicalIsSame(m.value);
      }
      CanonicalObjectIsSame(members);
    case _ =>
  }

  lemma CanonicalObjectIsSame(members: seq<Member>)
    requires DistinctKeys(members) && forall m <- members :: Same(m.value, Canonical(m.value))
    ensures Same(Obj(members), Canonical(Obj(members)))
  {
    hide DistinctKeys, SortMembers, CanonicalMembers;
    var sorted := SortMembers(CanonicalMembers(members));
    CanonicalMemberIn(members);
    SortMembersElements(CanonicalMembers(members));
    assert DistinctKeys(sorted) by {
      CanonicalStaysDistinct(members);
      SortMembersDistinct(CanonicalMembers(members));
    }
    forall m <- members
      ensures HasPartner(m, sorted)
    {
      assert CanonicalMember(m) in sorted;
    }
    forall n <- sorted
      ensures IsPartner(n, members)
    {
      var m :| m in members && CanonicalMember(m) == n;
    }
  }

  // ----- Printed alike, and the same -----

  /** Two values that are the same as a third are the same. */
  lemma {:induction false} SameAsThird(a: Json, b: Json, c: Json)
    requires Same(a, c) && Same(b, c)
    ensures Same(a, b)
    decreases a
  {
    hide DistinctKeys;
    match a
    case Arr(items) =>
      forall i | 0 <= i < |items|
        ensures Same(items[i], b.items[i])
      {
        SameAsThird(items[i], b.items[i], c.items[i]);
      }
    case Obj(members) =>
      forall m <- members
        ensures HasPartner(m, b.members)
      {
        assert HasPartner(m, c.members);
        var n :| n in c.members && n.key == m.key && Same(m.value, n.value);
        assert IsPartner(n, b.members);
        var k :| k in b.members && k.key == n.key && Same(k.value, n.value);
        SameAsThird(m.value, k.value, n.value);
      }
      forall k <- b.members
        ensures IsPartner(k, members)
      {
        assert HasPartner(k, c.members);
        var n :| n in c.members && n.key == k.key && Same(k.value, n.value);
        assert IsPartner(n, members);
        var m :| m in members && m.key == n.key && Same(m.value, n.value);
        SameAsThird(m.value, k.value, n.value);
      }
    case _ =>
  }

  /** Canonical JSON is the same text exactly for the same value. */
  lemma PrintedAlikeExactly(a: Json, b: Json)
    requires Printable(a) && WellKeyed(a) && Printable(b) && WellKeyed(b)
    ensures Print(a) == Print(b) <==> Same(a, b)
  {
    hide Same, Print, Printable, WellKeyed, Read, Canonical;
    if Print(a) == Print(b) {
      PrintReadBack(a);
      PrintReadBack(b);
      CanonicalIsSame(a);
      CanonicalIsSame(b);
      SameAsThird(a, b, Canonical(a));
    }
    if Same(a, b) {
      PrintIgnoresOrder(a, b);
    }
  }

  /** So a row frozen for one command is taken for another's exactly when kind, version and payload are the same. */
  lemma ContentComparedExactly(c: Command, d: Command, status: RowStatus, attempts: nat)
    requires Printable(c.payload) && WellKeyed(c.payload) && Printable(d.payload) && WellKeyed(d.payload)
    ensures SameContent(RowOf(c, status, attempts), d) <==>
              c.kind == d.kind && c.version == d.version && Same(c.payload, d.payload)
  {
    hide Same, Print, Printable, WellKeyed;
    PrintedAlikeExactly(c.payload, d.payload);
  }
}
