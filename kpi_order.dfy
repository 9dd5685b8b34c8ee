/**
 * `KpiInstances.OrderBy(x => x.Id)`, the order in which the cookie decoder assigns the flags k0..kn
 * to a test's KPIs: a stable sort by id, and the facts about it the round trip needs.
 */
module KpiOrder {
  import opened Entities

  predicate Ascending(ids: seq<Guid>)
  {
    forall i, j | 0 <= i < j < |ids| :: ids[i] <= ids[j]
  }

  predicate StrictlyAscending(ids: seq<Guid>)
  {
    forall i, j | 0 <= i < j < |ids| :: ids[i] < ids[j]
  }

  predicate SortedById(s: seq<Kpi>)
  {
    forall i, j | 0 <= i < j < |s| :: s[i].id <= s[j].id
  }

  /** Inserts k before the first element whose id is not smaller, so equal ids keep their order. */
  function InsertById(k: Kpi, s: seq<Kpi>): (r: seq<Kpi>)
    ensures |r| == |s| + 1
  {
    if s == [] || k.id <= s[0].id then [k] + s else [s[0]] + InsertById(k, s[1..])
  }

  /** Enumerable.OrderBy(x => x.Id). */
  function SortById(s: seq<Kpi>): (r: seq<Kpi>)
    ensures |r| == |s|
  {
    if s == [] then [] else InsertById(s[0], SortById(s[1..]))
  }

  lemma {:induction false} InsertByIdSorted(k: Kpi, s: seq<Kpi>)
    requires SortedById(s)
    ensures SortedById(InsertById(k, s))
    ensures s != [] ==> InsertById(k, s)[0] == k || InsertById(k, s)[0] == s[0]
  {
    if s != [] && k.id > s[0].id {
      InsertByIdSorted(k, s[1..]);
      var r := InsertById(k, s);
      var t := InsertById(k, s[1..]);
      assert r == [s[0]] + t;
      forall i, j | 0 <= i < j < |r| ensures r[i].id <= r[j].id {
        if i == 0 {
          assert r[j] == t[j - 1];
          assert t[j - 1] in t;
          InsertByIdMembers(k, s[1..]);
          assert t[j - 1] == k || t[j - 1] in s[1..];
        }
      }
    }
  }

  lemma InsertByIdMembers(k: Kpi, s: seq<Kpi>)
    ensures multiset(InsertById(k, s)) == multiset(s) + multiset{k}
    ensures multiset(KpiIds(InsertById(k, s))) == multiset(KpiIds(s)) + multiset{k.id}
    ensures forall x | x in InsertById(k, s) :: x == k || x in s
  {
    InsertByIdPermutes(k, s);
    InsertByIdIds(k, s);
    forall x | x in InsertById(k, s) ensures x == k || x in s {
      assert x in multiset(InsertById(k, s));
    }
  }

  lemma {:induction false} InsertByIdPermutes(k: Kpi, s: seq<Kpi>)
    ensures multiset(InsertById(k, s)) == multiset(s) + multiset{k}
  {
    if s != [] && k.id > s[0].id {
      InsertByIdPermutes(k, s[1..]);
      assert s == [s[0]] + s[1..];
    }
  }

  lemma {:induction false} InsertByIdIds(k: Kpi, s: seq<Kpi>)
    ensures multiset(KpiIds(InsertById(k, s))) == multiset(KpiIds(s)) + multiset{k.id}
  {
    if s == [] || k.id <= s[0].id {
      assert KpiIds([k] + s) == [k.id] + KpiIds(s);
    } else {
      InsertByIdIds(k, s[1..]);
      assert KpiIds(s) == [s[0].id] + KpiIds(s[1..]);
      assert KpiIds([s[0]] + InsertById(k, s[1..])) == [s[0].id] + KpiIds(InsertById(k, s[1..]));
    }
  }

  /** The sorted KPIs are in ascending id order. */
  lemma {:induction false} SortByIdSorted(s: seq<Kpi>)
    ensures SortedById(SortById(s))
  {
    if s != [] {
      SortByIdSorted(s[1..]);
      InsertByIdSorted(s[0], SortById(s[1..]));
    }
  }

  /** The sorted KPIs are a permutation of the test's KPIs. */
  lemma {:induction false} SortByIdPermutes(s: seq<Kpi>)
    ensures multiset(SortById(s)) == multiset(s)
  {
    if s != [] {
      SortByIdPermutes(s[1..]);
      InsertByIdMembers(s[0], SortById(s[1..]));
      assert s == [s[0]] + s[1..];
    }
  }

  lemma IdsOfCons(k: Kpi, s: seq<Kpi>)
    ensures KpiIds([k] + s) == [k.id] + KpiIds(s)
  {
  }

  /** The sorted KPIs hold the same ids as the test's KPIs. */
  lemma {:induction false} SortByIdKeepsIds(s: seq<Kpi>)
    ensures multiset(KpiIds(SortById(s))) == multiset(KpiIds(s))
  {
    if s != [] {
      var rest := SortById(s[1..]);
      assert SortById(s) == InsertById(s[0], rest);
      SortByIdKeepsIds(s[1..]);
      InsertByIdIds(s[0], rest);
      assert s == [s[0]] + s[1..];
      IdsOfCons(s[0], s[1..]);
      assert multiset(KpiIds(s)) == multiset{s[0].id} + multiset(KpiIds(s[1..]));
    }
  }

  lemma {:induction false} AscendingHeadIsLeast(a: seq<Guid>)
    requires Ascending(a) && a != []
    ensures forall x | x in multiset(a) :: a[0] <= x
  {
    forall x | x in multiset(a) ensures a[0] <= x {
      assert x in a;
      var j :| 0 <= j < |a| && a[j] == x;
      if j > 0 {
        assert a[0] <= a[j];
      }
    }
  }

  /** Two ascending id sequences holding the same ids are the same sequence. */
  lemma {:induction false} AscendingUnique(a: seq<Guid>, b: seq<Guid>)
    requires Ascending(a) && Ascending(b)
    requires multiset(a) == multiset(b)
    ensures a == b
    decreases |a|
  {
    assert |a| == |multiset(a)| == |multiset(b)| == |b|;
    if a != [] {
      AscendingHeadIsLeast(a);
      AscendingHeadIsLeast(b);
      assert a[0] in multiset(b) && b[0] in multiset(a);
      assert a[0] == b[0];
      assert a == [a[0]] + a[1..];
      assert b == [b[0]] + b[1..];
      assert multiset(a[1..]) == multiset(a) - multiset{a[0]};
      assert multiset(b[1..]) == multiset(b) - multiset{b[0]};
      AscendingUnique(a[1..], b[1..]);
    }
  }

  /**
   * When a record's flags are in ascending id order and hold exactly the test's KPI ids, the decoder's
   * sorted KPI order lines up with the record's flags one by one.
   */
  lemma SortedIdsMatchFlags(kpis: seq<Kpi>, flags: seq<KpiFlag>)
    requires Ascending(FlagIds(flags))
    requires multiset(FlagIds(flags)) == multiset(KpiIds(kpis))
    ensures KpiIds(SortById(kpis)) == FlagIds(flags)
  {
    SortByIdSorted(kpis);
    SortByIdKeepsIds(kpis);
    AscendingUnique(KpiIds(SortById(kpis)), FlagIds(flags));
  }
}
