/** The bounded walks over a bucket, src/lib/aws.ts: counters, the newest objects kept in
    a periodically trimmed list, and the multipart count. A listing is its pages; there is
    always a first one, and a page has a continuation token when another follows it. */
module BucketScan {
  import opened Options

  const PAGE_LIMIT := 1000            // src/lib/storage/bucket-scan.ts:20
  const MULTIPART_PAGE_LIMIT := 10
  const DAY_MS := 86400000

  /** An object as listed; the server may leave any field out. Times are epoch ms. */
  datatype Obj = Obj(key: Option<string>, size: Option<nat>, modified: Option<int>)

  /** An entry of the recent list. The ISO date is kept as its time; no date sorts as the
      empty string does, before every date. */
  datatype Recent = Recent(key: string, size: nat, modified: Option<int>)

  datatype Stats = Stats(objectCount: nat, bytesTotal: nat, bytesLast24h: nat, truncated: bool)

  type Page = seq<Obj>

  function Size(o: Obj): nat {
    if o.size.Some? then o.size.value else 0
  }

  function Entry(o: Obj): Recent {
    Recent(if o.key.Some? then o.key.value else "", Size(o), o.modified)
  }

  predicate Within(o: Obj, cutoff: int) {
    o.modified.Some? && o.modified.value >= cutoff
  }

  // ----- what the walk is measured against --------------------------------------

  /** Every object of the pages, in listing order. */
  function Objects(pages: seq<Page>): seq<Obj> {
    if |pages| == 0 then [] else Objects(pages[..|pages| - 1]) + pages[|pages| - 1]
  }

  function Bytes(objs: seq<Obj>): nat {
    if |objs| == 0 then 0 else Bytes(objs[..|objs| - 1]) + Size(objs[|objs| - 1])
  }

  function BytesSince(objs: seq<Obj>, cutoff: int): nat {
    if |objs| == 0 then 0
    else BytesSince(objs[..|objs| - 1], cutoff)
         + (if Within(objs[|objs| - 1], cutoff) then Size(objs[|objs| - 1]) else 0)
  }

  function Entries(objs: seq<Obj>): (r: seq<Recent>)
    ensures |r| == |objs|
  {
    seq(|objs|, i requires 0 <= i < |objs| => Entry(objs[i]))
  }

  /** The pages a walk reads. */
  function Walked<T>(pages: seq<T>, limit: nat): seq<T> {
    if |pages| <= limit then pages else pages[..limit]
  }

  lemma {:induction false} CountersAppend(a: seq<Obj>, b: seq<Obj>, cutoff: int)
    ensures Bytes(a + b) == Bytes(a) + Bytes(b)
    ensures BytesSince(a + b, cutoff) == BytesSince(a, cutoff) + BytesSince(b, cutoff)
  {
    if |b| == 0 {
      assert a + b == a;
    } else {
      assert (a + b)[..|a + b| - 1] == a + b[..|b| - 1];
      CountersAppend(a, b[..|b| - 1], cutoff);
    }
  }

  lemma {:induction false} ObjectsAppend(a: seq<Page>, b: seq<Page>)
    ensures Objects(a + b) == Objects(a) + Objects(b)
  {
    if |b| == 0 {
      assert a + b == a;
    } else {
      assert (a + b)[..|a + b| - 1] == a + b[..|b| - 1];
      ObjectsAppend(a, b[..|b| - 1]);
      Regroup(Objects(a), Objects(b[..|b| - 1]), b[|b| - 1]);
    }
  }

  /** What one object adds; with CountersAppend that settles the figures of any listing. */
  lemma CountersOfOne(o: Obj, cutoff: int)
    ensures Bytes([o]) == if o.size.None? then 0 else o.size.value
    ensures BytesSince([o], cutoff)
            == if o.size.None? || o.modified.None? || o.modified.value < cutoff then 0 else o.size.value
  {
    assert [o][..0] == [];
  }

  lemma OnePageMore(pages: seq<Page>, read: nat, cutoff: int)
    requires read < |pages|
    ensures Objects(pages[..read + 1]) == Objects(pages[..read]) + pages[read]
    ensures Bytes(Objects(pages[..read + 1])) == Bytes(Objects(pages[..read])) + Bytes(pages[read])
    ensures BytesSince(Objects(pages[..read + 1]), cutoff)
            == BytesSince(Objects(pages[..read]), cutoff) + BytesSince(pages[read], cutoff)
  {
    assert pages[..read + 1][..read] == pages[..read];
    CountersAppend(Objects(pages[..read]), pages[read], cutoff);
  }

  // ----- the newest-first sort ---------------------------------------------------

  /** `a` sorts strictly before `b` in a newest-first list. */
  predicate Newer(a: Recent, b: Recent) {
    a.modified.Some? && (b.modified.None? || a.modified.value > b.modified.value)
  }

  predicate NewestFirst(s: seq<Recent>) {
    forall i, j :: 0 <= i < j < |s| ==> !Newer(s[j], s[i])
  }

  /** The entries of one date, in order. */
  function Dated(s: seq<Recent>, date: Option<int>): seq<Recent> {
    if |s| == 0 then [] else (if s[0].modified == date then [s[0]] else []) + Dated(s[1..], date)
  }

  /** Put an entry behind every entry that is not older. */
  function Insert(s: seq<Recent>, x: Recent): (r: seq<Recent>)
    ensures |r| == |s| + 1
  {
    if |s| == 0 then [x]
    else if Newer(x, s[0]) then [x] + s
    else [s[0]] + Insert(s[1..], x)
  }

  function InsertAll(s: seq<Recent>, more: seq<Recent>): (r: seq<Recent>)
    ensures |r| == |s| + |more|
  {
    if |more| == 0 then s else Insert(InsertAll(s, more[..|more| - 1]), more[|more| - 1])
  }

  function Sort(s: seq<Recent>): (r: seq<Recent>)
    ensures |r| == |s|
  {
    InsertAll([], s)
  }

  function Top(n: nat, s: seq<Recent>): seq<Recent> {
    if |s| <= n then s else s[..n]
  }

  lemma {:induction false} DatedAppend(a: seq<Recent>, b: seq<Recent>, date: Option<int>)
    ensures Dated(a + b, date) == Dated(a, date) + Dated(b, date)
  {
    if |a| == 0 {
      assert a + b == b;
    } else {
      var head := if a[0].modified == date then [a[0]] else [];
      assert a + b == [a[0]] + (a[1..] + b);
      DatedCons(a[0], a[1..] + b, date);
      DatedAppend(a[1..], b, date);
      Regroup(head, Dated(a[1..], date), Dated(b, date));
    }
  }

  lemma {:induction false} NothingDated(s: seq<Recent>, date: Option<int>)
    requires forall i :: 0 <= i < |s| ==> s[i].modified != date
    ensures Dated(s, date) == []
  {
    if |s| > 0 {
      NothingDated(s[1..], date);
    }
  }

  lemma {:induction false} InsertKeepsOrder(s: seq<Recent>, x: Recent)
    requires NewestFirst(s)
    ensures NewestFirst(Insert(s, x))
    ensures forall k :: 0 <= k < |s| + 1 ==> Insert(s, x)[k] == x || Insert(s, x)[k] in s
  {
    if |s| > 0 && !Newer(x, s[0]) {
      InsertKeepsOrder(s[1..], x);
      var r := Insert(s[1..], x);
      forall k | 0 <= k < |r| ensures !Newer(r[k], s[0]) {
        if r[k] != x {
          var i :| 0 <= i < |s[1..]| && s[1..][i] == r[k];
          assert s[i + 1] == r[k];
        }
      }
    }
  }

  lemma {:induction false} InsertKeepsEntries(s: seq<Recent>, x: Recent)
    ensures multiset(Insert(s, x)) == multiset(s) + multiset{x}
  {
    if |s| > 0 {
      assert s == [s[0]] + s[1..];
      if !Newer(x, s[0]) { InsertKeepsEntries(s[1..], x); }
    }
  }

  lemma DatedCons(x: Recent, s: seq<Recent>, date: Option<int>)
    ensures Dated([x] + s, date) == (if x.modified == date then [x] else []) + Dated(s, date)
  {
    assert ([x] + s)[1..] == s;
  }

  lemma NewestFirstTail(s: seq<Recent>, x: Recent)
    requires |s| > 0 && NewestFirst(s)
    ensures NewestFirst(s[1..])
    ensures Newer(x, s[0]) ==> forall i :: 0 <= i < |s| ==> s[i].modified != x.modified
  {
    if Newer(x, s[0]) {
      forall i | 0 <= i < |s| ensures s[i].modified != x.modified {
        if i > 0 { assert !Newer(s[i], s[0]); }
      }
    }
  }

  lemma {:induction false} InsertKeepsDates(s: seq<Recent>, x: Recent, date: Option<int>)
    requires NewestFirst(s)
    ensures Dated(Insert(s, x), date) == Dated(s, date) + (if x.modified == date then [x] else [])
  {
    if |s| == 0 {
      DatedCons(x, [], date);
      assert [x] + [] == [x];
    } else {
      NewestFirstTail(s, x);
      if Newer(x, s[0]) {
        DatedCons(x, s, date);
        if x.modified == date { NothingDated(s, date); }
        assert [x] + [] == [] + [x] && [] + Dated(s, date) == Dated(s, date) + [];
      } else {
        InsertKeepsDates(s[1..], x, date);
        BehindTheHead(s, Insert(s[1..], x), date, if x.modified == date then [x] else []);
      }
    }
  }

  lemma BehindTheHead(s: seq<Recent>, inserted: seq<Recent>, date: Option<int>, last: seq<Recent>)
    requires |s| > 0 && Dated(inserted, date) == Dated(s[1..], date) + last
    ensures Dated([s[0]] + inserted, date) == Dated(s, date) + last
  {
    DatedCons(s[0], inserted, date);
    Regroup(if s[0].modified == date then [s[0]] else [], Dated(s[1..], date), last);
  }

  /** `a` is no older than `b`; what has no date is older than everything that has one. */
  predicate NoOlder(a: Recent, b: Recent) {
    b.modified.Some? ==> a.modified.Some? && a.modified.value >= b.modified.value
  }

  predicate Descending(s: seq<Recent>) {
    forall i, j :: 0 <= i < j < |s| ==> NoOlder(s[i], s[j])
  }

  /** The sort is descending, keeps every entry, and keeps entries of one date in the
      order they came. */
  lemma {:induction false} SortIsStable(s: seq<Recent>, date: Option<int>)
    ensures NewestFirst(Sort(s)) && Descending(Sort(s)) && multiset(Sort(s)) == multiset(s)
    ensures Dated(Sort(s), date) == Dated(s, date)
  {
    if |s| > 0 {
      var t, x := s[..|s| - 1], s[|s| - 1];
      assert s == t + [x];
      SortIsStable(t, date);
      InsertKeepsOrder(Sort(t), x);
      InsertKeepsEntries(Sort(t), x);
      InsertKeepsDates(Sort(t), x, date);
      DatedAppend(t, [x], date);
      DatedCons(x, [], date);
      assert [x] + [] == [x];
    }
  }

  lemma {:induction false} FirstDated(s: seq<Recent>, k: nat)
    requires k < |s|
    ensures |Dated(s, s[k].modified)| > 0
  {
    if k > 0 { FirstDated(s[1..], k - 1); }
  }

  lemma {:induction false} DatedSomewhere(s: seq<Recent>, date: Option<int>) returns (k: nat)
    requires |Dated(s, date)| > 0
    ensures k < |s| && s[k].modified == date
  {
    if s[0].modified == date { return 0; }
    k := DatedSomewhere(s[1..], date);
    k := k + 1;
  }

  lemma SameDate(a: seq<Recent>, b: seq<Recent>)
    requires |a| > 0 && |b| > 0 && NewestFirst(a)
    requires |Dated(a, b[0].modified)| > 0
    ensures !Newer(b[0], a[0])
  {
    var j := DatedSomewhere(a, b[0].modified);
  }

  lemma DatedTail(a: seq<Recent>, b: seq<Recent>, date: Option<int>)
    requires |a| > 0 && |b| > 0 && a[0] == b[0] && Dated(a, date) == Dated(b, date)
    ensures Dated(a[1..], date) == Dated(b[1..], date)
  {
    var k := if a[0].modified == date then 1 else 0;
    assert Dated(a[1..], date) == Dated(a, date)[k..];
    assert Dated(b[1..], date) == Dated(b, date)[k..];
  }

  /** Two lists agree date by date. */
  ghost predicate SameByDate(a: seq<Recent>, b: seq<Recent>) {
    forall date :: Dated(a, date) == Dated(b, date)
  }

  /** Nothing else is: a list that is descending and agrees date by date is the sort, so
      any stable sort by date gives exactly it. */
  lemma {:induction false} StableSortIsUnique(a: seq<Recent>, b: seq<Recent>)
    requires NewestFirst(a) && NewestFirst(b) && SameByDate(a, b)
    ensures a == b
  {
    if |a| > 0 { FirstDated(a, 0); assert |Dated(b, a[0].modified)| > 0; }
    if |b| > 0 { FirstDated(b, 0); assert |Dated(a, b[0].modified)| > 0; }
    if |a| > 0 && |b| > 0 {
      SameDate(a, b);
      SameDate(b, a);
      assert Dated(a, a[0].modified)[0] == a[0] && Dated(b, a[0].modified)[0] == b[0];
      forall date ensures Dated(a[1..], date) == Dated(b[1..], date) {
        DatedTail(a, b, date);
      }
      StableSortIsUnique(a[1..], b[1..]);
      assert a == [a[0]] + a[1..] && b == [b[0]] + b[1..];
    }
  }

  // ----- trimming ------------------------------------------------------------------

  lemma {:induction false} TopInsert(n: nat, s: seq<Recent>, x: Recent)
    ensures Top(n, Insert(Top(n, s), x)) == Top(n, Insert(s, x))
  {
    if |s| > n && n > 0 && !Newer(x, s[0]) {
      assert Top(n, s)[1..] == Top(n - 1, s[1..]);
      TopInsert(n - 1, s[1..], x);
      TopCons(n, s[0], Insert(Top(n - 1, s[1..]), x));
      TopCons(n, s[0], Insert(s[1..], x));
    }
  }

  lemma TopCons(n: nat, x: Recent, s: seq<Recent>)
    requires n > 0
    ensures Top(n, [x] + s) == [x] + Top(n - 1, s)
  {
  }

  lemma {:induction false} TopInsertAll(n: nat, s: seq<Recent>, more: seq<Recent>)
    ensures Top(n, InsertAll(Top(n, s), more)) == Top(n, InsertAll(s, more))
  {
    if |more| > 0 {
      var m, x := more[..|more| - 1], more[|more| - 1];
      TopInsertAll(n, s, m);
      TopInsert(n, InsertAll(Top(n, s), m), x);
      TopInsert(n, InsertAll(s, m), x);
    }
  }

  lemma {:induction false} InsertAllAppend(s: seq<Recent>, a: seq<Recent>, b: seq<Recent>)
    ensures InsertAll(s, a + b) == InsertAll(InsertAll(s, a), b)
  {
    if |b| == 0 {
      assert a + b == a;
    } else {
      assert (a + b)[..|a + b| - 1] == a + b[..|b| - 1];
      InsertAllAppend(s, a, b[..|b| - 1]);
    }
  }

  lemma {:induction false} InsertLast(s: seq<Recent>, x: Recent)
    requires forall i :: 0 <= i < |s| ==> !Newer(x, s[i])
    ensures Insert(s, x) == s + [x]
  {
    if |s| > 0 {
      InsertLast(s[1..], x);
      assert s + [x] == [s[0]] + (s[1..] + [x]);
    }
  }

  lemma {:induction false} SortedStays(s: seq<Recent>)
    requires NewestFirst(s)
    ensures Sort(s) == s
  {
    if |s| > 0 {
      SortedStays(s[..|s| - 1]);
      InsertLast(s[..|s| - 1], s[|s| - 1]);
    }
  }

  /** Trimming in the middle of a walk loses nothing, ties included. */
  lemma TrimmingEarlyIsHarmless(n: nat, a: seq<Recent>, b: seq<Recent>)
    ensures Top(n, Sort(Top(n, Sort(a)) + b)) == Top(n, Sort(a + b))
  {
    var t := Top(n, Sort(a));
    SortIsStable(a, None);
    SortedStays(t);
    InsertAllAppend([], t, b);
    InsertAllAppend([], a, b);
    TopInsertAll(n, Sort(a), b);
  }

  // ----- the walks -----------------------------------------------------------------

  /** What a finished walk reports: exact when the bucket ended within the page limit. */
  ghost predicate Reports(r: Stats, pages: seq<Page>, cutoff: int) {
    var all := Objects(Walked(pages, PAGE_LIMIT));
    && r.objectCount == |all|
    && r.bytesTotal == Bytes(all)
    && r.bytesLast24h == BytesSince(all, cutoff)
    && (r.truncated <==> |pages| > 1000)
  }

  /** `s3Stats`. */
  method S3Stats(pages: seq<Page>, now: int) returns (r: Stats)
    requires |pages| > 0
    ensures Reports(r, pages, now - 24 * 60 * 60 * 1000)
  {
    var cutoff := now - DAY_MS;
    var count, total, recentBytes := 0, 0, 0;
    var read, truncated, more := 0, false, true;
    while more
      invariant 0 <= read <= |pages| && read <= PAGE_LIMIT
      invariant more ==> read < |pages| && read < PAGE_LIMIT && !truncated
      invariant !more ==> pages[..read] == Walked(pages, PAGE_LIMIT) && (truncated <==> |pages| > PAGE_LIMIT)
      invariant count == |Objects(pages[..read])|
      invariant total == Bytes(Objects(pages[..read]))
      invariant recentBytes == BytesSince(Objects(pages[..read]), cutoff)
      decreases more, |pages| - read
    {
      var page := pages[read];
      ghost var before := Objects(pages[..read]);
      for i := 0 to |page|
        invariant count == |before| + i
        invariant total == Bytes(before) + Bytes(page[..i])
        invariant recentBytes == BytesSince(before, cutoff) + BytesSince(page[..i], cutoff)
      {
        assert page[..i + 1][..i] == page[..i];
        count := count + 1;
        total := total + Size(page[i]);
        if Within(page[i], cutoff) { recentBytes := recentBytes + Size(page[i]); }
      }
      assert page[..|page|] == page;
      OnePageMore(pages, read, cutoff);
      read := read + 1;
      more := read < |pages|;
      if more && read >= PAGE_LIMIT {
        truncated, more := true, false;
      }
    }
    return Stats(count, total, recentBytes, truncated);
  }

  /** `s3SubstrateStats`: the same figures, and the newest `limit` objects of everything
      walked, though `recent` never holds more than 40 times that and a page (`peak`). */
  method S3SubstrateStats(pages: seq<Page>, limit: nat, now: int, ghost pageSize: nat)
    returns (r: Stats, recent: seq<Recent>, ghost peak: nat)
    requires |pages| > 0 && forall i :: 0 <= i < |pages| ==> |pages[i]| <= pageSize
    ensures Reports(r, pages, now - 24 * 60 * 60 * 1000)
    ensures recent == Top(limit, Sort(Entries(Objects(Walked(pages, PAGE_LIMIT)))))
    ensures peak <= 40 * limit + pageSize
  {
    var cutoff := now - DAY_MS;
    var count, total, recentBytes := 0, 0, 0;
    var read, truncated, more := 0, false, true;
    recent, peak := [], 0;
    while more
      invariant 0 <= read <= |pages| && read <= PAGE_LIMIT
      invariant more ==> read < |pages| && read < PAGE_LIMIT && !truncated
      invariant !more ==> pages[..read] == Walked(pages, PAGE_LIMIT) && (truncated <==> |pages| > PAGE_LIMIT)
      invariant count == |Objects(pages[..read])|
      invariant total == Bytes(Objects(pages[..read]))
      invariant recentBytes == BytesSince(Objects(pages[..read]), cutoff)
      invariant StandsFor(recent, Objects(pages[..read]), limit)
      invariant |recent| <= 40 * limit && peak <= 40 * limit + pageSize
      decreases more, |pages| - read
    {
      var page := pages[read];
      ghost var before, was := Objects(pages[..read]), recent;
      var pageCount, pageBytes, pageRecentBytes;
      pageCount, pageBytes, pageRecentBytes, recent := TakeIn(page, cutoff, recent);
      peak := if peak > |recent| then peak else |recent|;
      count, total, recentBytes := count + pageCount, total + pageBytes, recentBytes + pageRecentBytes;
      OnePageMore(pages, read, cutoff);
      PageKeepsStanding(was, before, page, limit);
      recent := TrimIfLong(recent, before + page, limit);
      read := read + 1;
      more := read < |pages|;
      if more && read >= PAGE_LIMIT {
        truncated, more := true, false;
      }
    }
    TrimKeepsStanding(recent, Objects(pages[..read]), limit);
    recent := Trim(recent, limit);
    r := Stats(count, total, recentBytes, truncated);
  }

  /** "Keep memory bounded on huge buckets." */
  method TrimIfLong(recent: seq<Recent>, ghost objs: seq<Obj>, limit: nat) returns (r: seq<Recent>)
    requires StandsFor(recent, objs, limit)
    ensures StandsFor(r, objs, limit) && |r| <= 40 * limit
  {
    r := recent;
    if |recent| > limit * 40 {
      TrimKeepsStanding(recent, objs, limit);
      r := Trim(recent, limit);
    }
  }

  /** One page of the walk. */
  method TakeIn(page: Page, cutoff: int, recent: seq<Recent>)
    returns (count: nat, total: nat, recentBytes: nat, extended: seq<Recent>)
    ensures count == |page| && total == Bytes(page) && recentBytes == BytesSince(page, cutoff)
    ensures extended == recent + Entries(page)
  {
    count, total, recentBytes, extended := 0, 0, 0, recent;
    for i := 0 to |page|
      invariant count == i && total == Bytes(page[..i]) && recentBytes == BytesSince(page[..i], cutoff)
      invariant extended == recent + Entries(page[..i])
    {
      assert page[..i + 1][..i] == page[..i];
      count := count + 1;
      total := total + Size(page[i]);
      if Within(page[i], cutoff) { recentBytes := recentBytes + Size(page[i]); }
      extended := extended + [Entry(page[i])];
      assert Entries(page[..i + 1]) == Entries(page[..i]) + [Entry(page[i])];
    }
    assert page[..|page|] == page;
  }

  function Trim(recent: seq<Recent>, limit: nat): seq<Recent> {
    Top(limit, Sort(recent))
  }

  /** Whatever comes after it, the list comes out as the objects themselves would. */
  ghost predicate StandsFor(recent: seq<Recent>, objs: seq<Obj>, limit: nat) {
    forall more: seq<Recent> :: Top(limit, Sort(recent + more)) == Top(limit, Sort(Entries(objs) + more))
  }

  lemma PageKeepsStanding(recent: seq<Recent>, objs: seq<Obj>, page: Page, limit: nat)
    requires StandsFor(recent, objs, limit)
    ensures StandsFor(recent + Entries(page), objs + page, limit)
  {
    var p := Entries(page);
    assert Entries(objs + page) == Entries(objs) + p;
    forall more: seq<Recent>
      ensures Top(limit, Sort((recent + p) + more)) == Top(limit, Sort(Entries(objs + page) + more))
    {
      StandsBefore(recent, objs, p, more, limit);
    }
  }

  lemma StandsBefore(recent: seq<Recent>, objs: seq<Obj>, p: seq<Recent>, more: seq<Recent>, limit: nat)
    requires StandsFor(recent, objs, limit)
    ensures Top(limit, Sort((recent + p) + more)) == Top(limit, Sort((Entries(objs) + p) + more))
  {
    Regroup(recent, p, more);
    Regroup(Entries(objs), p, more);
    assert Top(limit, Sort(recent + (p + more))) == Top(limit, Sort(Entries(objs) + (p + more)));
  }

  lemma Regroup<T>(a: seq<T>, b: seq<T>, c: seq<T>)
    ensures (a + b) + c == a + (b + c)
  {
  }

  lemma TrimKeepsStanding(recent: seq<Recent>, objs: seq<Obj>, limit: nat)
    requires StandsFor(recent, objs, limit)
    ensures StandsFor(Trim(recent, limit), objs, limit)
    ensures Trim(recent, limit) == Top(limit, Sort(Entries(objs)))
  {
    forall more: seq<Recent>
      ensures Top(limit, Sort(Trim(recent, limit) + more)) == Top(limit, Sort(Entries(objs) + more))
    {
      TrimmingEarlyIsHarmless(limit, recent, more);
    }
    assert recent + [] == recent && Entries(objs) + [] == Entries(objs);
  }

  /** The figures are the bucket's own when the walk says it reached the end. When it
      says it did not, they are floors, short by what the unread pages hold. */
  lemma TruncatedMeansFloor(r: Stats, pages: seq<Page>, cutoff: int)
    requires Reports(r, pages, cutoff)
    ensures var all := Objects(pages);
            var unread := Objects(pages[|Walked(pages, PAGE_LIMIT)|..]);
            && r.objectCount + |unread| == |all|
            && r.bytesTotal + Bytes(unread) == Bytes(all)
            && r.bytesLast24h + BytesSince(unread, cutoff) == BytesSince(all, cutoff)
            && (!r.truncated ==> unread == [])
  {
    var walked := Walked(pages, PAGE_LIMIT);
    var rest := pages[|walked|..];
    assert walked + rest == pages;
    ObjectsAppend(walked, rest);
    CountersAppend(Objects(walked), Objects(rest), cutoff);
  }

  /** The list shows objects of the bucket, each with its own key, size and date. */
  predicate IsListed(e: Recent, o: Obj) {
    && e.key == (if o.key.Some? then o.key.value else "")
    && e.size == (if o.size.Some? then o.size.value else 0)
    && e.modified == o.modified
  }

  /** The list of a complete walk is in order and full, it shows objects of the bucket as
      they are, and every object that is not in it is no newer than any that is. */
  lemma NothingNewerIsMissing(pages: seq<Page>, limit: nat, recent: seq<Recent>, i: nat)
    requires |pages| <= PAGE_LIMIT && recent == Top(limit, Sort(Entries(Objects(pages))))
    requires i < |Objects(pages)|
    ensures Descending(recent)
    ensures |recent| == if |Objects(pages)| <= limit then |Objects(pages)| else limit
    ensures forall k :: 0 <= k < |recent| ==> exists o :: o in Objects(pages) && IsListed(recent[k], o)
    ensures var e := Entry(Objects(pages)[i]);
            IsListed(e, Objects(pages)[i])
            && (e in recent || (|recent| == limit && forall k :: 0 <= k < |recent| ==> NoOlder(recent[k], e)))
  {
    var objs := Objects(pages);
    ListedAreObjects(objs, limit);
    OmittedIsNoNewer(Entries(objs), limit, i);
  }

  lemma OmittedIsNoNewer(entries: seq<Recent>, limit: nat, i: nat)
    requires i < |entries|
    ensures var recent := Top(limit, Sort(entries));
            && Descending(recent) && |recent| == (if |entries| <= limit then |entries| else limit)
            && (entries[i] in recent
                || (|recent| == limit && forall k :: 0 <= k < |recent| ==> NoOlder(recent[k], entries[i])))
  {
    var sorted := Sort(entries);
    SortIsStable(entries, None);
    var j := SortedSomewhere(entries, i);
    if j < limit && |sorted| > limit { assert sorted[..limit][j] == entries[i]; }
  }

  lemma SortedSomewhere(entries: seq<Recent>, i: nat) returns (j: nat)
    requires i < |entries|
    ensures j < |Sort(entries)| && Sort(entries)[j] == entries[i]
  {
    SortIsStable(entries, None);
    assert entries[i] in multiset(entries);
    assert entries[i] in multiset(Sort(entries));
    j :| 0 <= j < |Sort(entries)| && Sort(entries)[j] == entries[i];
  }

  lemma ListedAreObjects(objs: seq<Obj>, limit: nat)
    ensures var recent := Top(limit, Sort(Entries(objs)));
            forall k :: 0 <= k < |recent| ==> exists o :: o in objs && IsListed(recent[k], o)
  {
    var entries := Entries(objs);
    var sorted := Sort(entries);
    SortIsStable(entries, None);
    forall k | 0 <= k < |sorted| ensures exists o :: o in objs && IsListed(sorted[k], o) {
      assert sorted[k] in multiset(sorted);
      assert sorted[k] in multiset(entries);
      var i :| 0 <= i < |entries| && entries[i] == sorted[k];
      assert objs[i] in objs && IsListed(sorted[k], objs[i]);
    }
  }

  /** `s3IncompleteMultipartUploads`: `uploads` is how many each page lists. */
  function Total(uploads: seq<nat>): nat {
    if |uploads| == 0 then 0 else Total(uploads[..|uploads| - 1]) + uploads[|uploads| - 1]
  }

  lemma {:induction false} TotalAppend(a: seq<nat>, b: seq<nat>)
    ensures Total(a + b) == Total(a) + Total(b)
    ensures |b| == 1 ==> Total(b) == b[0]
  {
    if |b| == 0 {
      assert a + b == a;
    } else {
      assert (a + b)[..|a + b| - 1] == a + b[..|b| - 1];
      TotalAppend(a, b[..|b| - 1]);
    }
  }

  /** And when it is truncated, a floor: short by what the unread pages list. */
  lemma CountedAreAFloor(uploads: seq<nat>)
    ensures Total(Walked(uploads, MULTIPART_PAGE_LIMIT)) + Total(uploads[|Walked(uploads, MULTIPART_PAGE_LIMIT)|..])
            == Total(uploads)
    ensures |Walked(uploads, MULTIPART_PAGE_LIMIT)| == if |uploads| > 10 then 10 else |uploads|
  {
    var walked := Walked(uploads, MULTIPART_PAGE_LIMIT);
    assert walked + uploads[|walked|..] == uploads;
    TotalAppend(walked, uploads[|walked|..]);
  }

  method S3IncompleteMultipartUploads(uploads: seq<nat>) returns (count: nat, truncated: bool)
    requires |uploads| > 0
    ensures count == Total(Walked(uploads, MULTIPART_PAGE_LIMIT))
    ensures truncated <==> |uploads| > MULTIPART_PAGE_LIMIT
    ensures !truncated ==> count == Total(uploads)
  {
    count, truncated := 0, false;
    var read, more := 0, true;
    while more
      invariant 0 <= read <= |uploads| && read <= MULTIPART_PAGE_LIMIT
      invariant more ==> read < |uploads| && read < MULTIPART_PAGE_LIMIT && !truncated
      invariant !more ==> uploads[..read] == Walked(uploads, MULTIPART_PAGE_LIMIT)
                          && (truncated <==> |uploads| > MULTIPART_PAGE_LIMIT)
      invariant count == Total(uploads[..read])
      decreases more, |uploads| - read
    {
      assert uploads[..read + 1][..read] == uploads[..read];
      count := count + uploads[read];
      read := read + 1;
      more := read < |uploads|;
      if more && read >= MULTIPART_PAGE_LIMIT {
        truncated, more := true, false;
      }
    }
  }
}
