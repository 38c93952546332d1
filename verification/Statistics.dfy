/**
 Check statistics: every worker aggregates its own results and reports them once a second, and the
 master merges the reports until it flushes.  Merging loses nothing: the outcome is that of one direct
 aggregation over all results that have arrived.
 */
module Statistics {
  import opened Seqs
  import opened Sites
  import W = Worker

  /** One result, with its round-trip time in microseconds. */
  datatype Result = Result(status: Status, code: int, errorCode: int, rtt: int) {
    /** The round-trip time in milliseconds, halves rounded up. */
    function Millis(): int { (rtt + 500) / 1000 }
  }

  datatype Bucket = Bucket(codes: map<int, nat>, errors: map<int, nat>, count: nat, sum: int, max: int, min: int)

  type Stats = map<Status, Bucket>

  function Count(m: map<int, nat>, k: int): nat { if k in m then m[k] else 0 }

  function Bump(m: map<int, nat>, k: int): map<int, nat> { m[k := Count(m, k) + 1] }

  function Max(a: int, b: int): int { if a < b then b else a }

  function Min(a: int, b: int): int { if a < b then a else b }

  function One(r: Result): Bucket {
    Bucket(map[r.code := 1], if r.errorCode != 0 then map[r.errorCode := 1] else map[],
           1, r.Millis(), r.Millis(), r.Millis())
  }

  function AddTo(b: Bucket, r: Result): Bucket {
    Bucket(Bump(b.codes, r.code), if r.errorCode != 0 then Bump(b.errors, r.errorCode) else b.errors,
           b.count + 1, b.sum + r.Millis(), Max(b.max, r.Millis()), Min(b.min, r.Millis()))
  }

  function Record(s: Stats, r: Result): Stats {
    s[r.status := if r.status in s then AddTo(s[r.status], r) else One(r)]
  }

  /** The direct aggregation of a list of results. */
  function Fold(rs: seq<Result>): Stats {
    if rs == [] then map[] else Record(Fold(rs[..|rs| - 1]), rs[|rs| - 1])
  }

  function MergeCounts(a: map<int, nat>, b: map<int, nat>): map<int, nat> {
    map k | k in a.Keys + b.Keys :: Count(a, k) + Count(b, k)
  }

  function MergeBuckets(a: Bucket, b: Bucket): Bucket {
    Bucket(MergeCounts(a.codes, b.codes), MergeCounts(a.errors, b.errors),
           a.count + b.count, a.sum + b.sum, Max(a.max, b.max), Min(a.min, b.min))
  }

  /** What the master holds after a report arrives. */
  function Merge(a: Stats, b: Stats): Stats {
    map k | k in a.Keys + b.Keys ::
      if k in a && k in b then MergeBuckets(a[k], b[k]) else if k in a then a[k] else b[k]
  }

  // ------------------------------------------------------------------------------------------
  // What the numbers mean

  /** The results of one status, in order. */
  function Of(rs: seq<Result>, status: Status): seq<Result> {
    if rs == [] then []
    else Of(rs[..|rs| - 1], status) + (if rs[|rs| - 1].status == status then [rs[|rs| - 1]] else [])
  }

  function WithCode(rs: seq<Result>, code: int): nat {
    if rs == [] then 0 else WithCode(rs[..|rs| - 1], code) + (if rs[|rs| - 1].code == code then 1 else 0)
  }

  function WithError(rs: seq<Result>, errorCode: int): nat {
    if rs == [] then 0
    else WithError(rs[..|rs| - 1], errorCode) + (if rs[|rs| - 1].errorCode == errorCode then 1 else 0)
  }

  function Total(rs: seq<Result>): int {
    if rs == [] then 0 else Total(rs[..|rs| - 1]) + rs[|rs| - 1].Millis()
  }

  /** A bucket stands for these results: exact counts, errors without zero, and the true extremes. */
  ghost predicate StandsFor(b: Bucket, rs: seq<Result>) {
    && b.count == |rs| && b.sum == Total(rs)
    && (forall code :: Count(b.codes, code) == WithCode(rs, code))
    && (forall errorCode :: Count(b.errors, errorCode) == if errorCode == 0 then 0 else WithError(rs, errorCode))
    && (forall i :: 0 <= i < |rs| ==> b.min <= rs[i].Millis() <= b.max)
    && (exists i :: 0 <= i < |rs| && rs[i].Millis() == b.min)
    && (exists i :: 0 <= i < |rs| && rs[i].Millis() == b.max)
  }

  lemma OneStandsFor(r: Result)
    ensures StandsFor(One(r), [r])
  {
    assert [r][..0] == [];
    assert [r][0].Millis() == r.Millis();
    assert WithCode([], r.code) == 0 && WithError([], r.errorCode) == 0;
    forall code ensures Count(One(r).codes, code) == WithCode([r], code) {
      assert WithCode([r], code) == WithCode([r][..0], code) + (if r.code == code then 1 else 0);
    }
    forall errorCode
      ensures Count(One(r).errors, errorCode) == if errorCode == 0 then 0 else WithError([r], errorCode)
    {
      assert WithError([r], errorCode) == WithError([r][..0], errorCode) + (if r.errorCode == errorCode then 1 else 0);
    }
  }

  lemma AddStandsFor(b: Bucket, rs: seq<Result>, r: Result)
    requires StandsFor(b, rs)
    ensures StandsFor(AddTo(b, r), rs + [r])
  {
    var all := rs + [r];
    var c := AddTo(b, r);
    assert all[..|all| - 1] == rs && all[|rs|] == r;
    var lo :| 0 <= lo < |rs| && rs[lo].Millis() == b.min;
    var hi :| 0 <= hi < |rs| && rs[hi].Millis() == b.max;
    assert all[if r.Millis() < b.min then |rs| else lo].Millis() == c.min;
    assert all[if b.max < r.Millis() then |rs| else hi].Millis() == c.max;
    forall i | 0 <= i < |all| ensures c.min <= all[i].Millis() <= c.max {
      if i < |rs| { assert all[i] == rs[i]; }
    }
  }

  /** Direct aggregation yields, for each status that occurred, the bucket that stands for its results. */
  lemma {:induction false} FoldMeans(rs: seq<Result>, status: Status)
    ensures status in Fold(rs) <==> Of(rs, status) != []
    ensures status in Fold(rs) ==> StandsFor(Fold(rs)[status], Of(rs, status))
  {
    if rs != [] {
      var r := rs[|rs| - 1];
      var before := rs[..|rs| - 1];
      FoldMeans(before, status);
      if r.status == status {
        if status in Fold(before) {
          AddStandsFor(Fold(before)[status], Of(before, status), r);
        } else {
          OneStandsFor(r);
          assert Of(rs, status) == [r];
        }
      } else {
        assert Of(rs, status) == Of(before, status);
      }
    }
  }

  // ------------------------------------------------------------------------------------------
  // Merging is aggregating

  lemma SameCounts(a: map<int, nat>, b: map<int, nat>)
    requires a.Keys == b.Keys
    requires forall k :: Count(a, k) == Count(b, k)
    ensures a == b
  {
    forall k | k in a ensures a[k] == b[k] {
      assert Count(a, k) == Count(b, k);
    }
  }

  lemma MergeCountsBump(a: map<int, nat>, b: map<int, nat>, k: int)
    ensures MergeCounts(a, Bump(b, k)) == Bump(MergeCounts(a, b), k)
  {
    SameCounts(MergeCounts(a, Bump(b, k)), Bump(MergeCounts(a, b), k));
  }

  lemma MergeCountsFirst(a: map<int, nat>, k: int)
    ensures MergeCounts(a, map[]) == a
    ensures MergeCounts(a, map[k := 1]) == Bump(a, k)
  {
    SameCounts(MergeCounts(a, map[]), a);
    SameCounts(MergeCounts(a, map[k := 1]), Bump(a, k));
  }

  lemma MergeBucketsAdd(a: Bucket, b: Bucket, r: Result)
    ensures MergeBuckets(a, AddTo(b, r)) == AddTo(MergeBuckets(a, b), r)
    ensures MergeBuckets(a, One(r)) == AddTo(a, r)
  {
    MergeCountsBump(a.codes, b.codes, r.code);
    MergeCountsBump(a.errors, b.errors, r.errorCode);
    MergeCountsFirst(a.codes, r.code);
    MergeCountsFirst(a.errors, r.errorCode);
  }

  lemma MergeRecord(a: Stats, b: Stats, r: Result)
    ensures Merge(a, Record(b, r)) == Record(Merge(a, b), r)
  {
    var left, right := Merge(a, Record(b, r)), Record(Merge(a, b), r);
    assert left.Keys == right.Keys;
    forall k | k in left ensures left[k] == right[k] {
      if k == r.status && k in a {
        MergeBucketsAdd(a[k], if k in b then b[k] else a[k], r);
      }
    }
  }

  /** Merging two aggregations is aggregating both lists. */
  lemma {:induction false} MergeFold(a: seq<Result>, b: seq<Result>)
    ensures Merge(Fold(a), Fold(b)) == Fold(a + b)
    decreases |b|
  {
    if b == [] {
      assert a + b == a;
      assert Merge(Fold(a), map[]) == Fold(a);
    } else {
      var front, r := b[..|b| - 1], b[|b| - 1];
      MergeFold(a, front);
      MergeRecord(Fold(a), Fold(front), r);
      assert (a + b)[..|a + b| - 1] == a + front;
    }
  }

  lemma BumpTwice(m: map<int, nat>, k: int, l: int)
    ensures Bump(Bump(m, k), l) == Bump(Bump(m, l), k)
  {
  }

  lemma AddToTwice(b: Bucket, p: Result, q: Result)
    ensures AddTo(AddTo(b, p), q) == AddTo(AddTo(b, q), p)
  {
    BumpTwice(b.codes, p.code, q.code);
    BumpTwice(b.errors, p.errorCode, q.errorCode);
  }

  lemma OneThenOther(p: Result, q: Result)
    ensures AddTo(One(p), q) == AddTo(One(q), p)
  {
    assert Bump(map[p.code := 1], q.code) == Bump(map[q.code := 1], p.code);
    BothOnce(p.errorCode, q.errorCode);
  }

  lemma RecordTwice(s: Stats, p: Result, q: Result)
    ensures Record(Record(s, p), q) == Record(Record(s, q), p)
  {
    if p.status != q.status {
      assert Record(Record(s, p), q) == Record(Record(s, q), p);
    } else if p.status in s {
      AddToTwice(s[p.status], p, q);
    } else {
      OneThenOther(p, q);
    }
  }

  lemma BothOnce(e: int, f: int)
    ensures e != 0 && f != 0 ==> Bump(map[e := 1], f) == Bump(map[f := 1], e)
    ensures Bump(map[], e) == map[e := 1]
    ensures Bump(map[], f) == map[f := 1]
  {
  }

  lemma FoldSnoc(rs: seq<Result>, r: Result)
    ensures Fold(rs + [r]) == Record(Fold(rs), r)
  {
    assert (rs + [r])[..|rs|] == rs;
  }

  lemma {:induction false} FoldMoves(a: seq<Result>, r: Result, b: seq<Result>)
    ensures Fold(a + [r] + b) == Record(Fold(a + b), r)
    decreases |b|
  {
    if b == [] {
      assert a + [r] + b == a + [r] && a + b == a;
      FoldSnoc(a, r);
    } else {
      var front, q := b[..|b| - 1], b[|b| - 1];
      assert b == front + [q];
      assert a + [r] + b == (a + [r] + front) + [q] && a + b == (a + front) + [q];
      FoldMoves(a, r, front);
      FoldSnoc(a + [r] + front, q);
      FoldSnoc(a + front, q);
      RecordTwice(Fold(a + front), r, q);
    }
  }

  lemma SameRest<T>(front: seq<T>, x: T, left: seq<T>, right: seq<T>)
    requires multiset(front + [x]) == multiset(left + [x] + right)
    ensures multiset(front) == multiset(left + right)
  {
    assert multiset(front + [x]) == multiset(front) + multiset{x};
    assert multiset(left + [x] + right) == multiset(left + right) + multiset{x};
    assert multiset(front) == multiset(front + [x]) - multiset{x};
  }

  /** The order of the results does not matter. */
  lemma {:induction false} FoldAnyOrder(a: seq<Result>, b: seq<Result>)
    requires multiset(a) == multiset(b)
    ensures Fold(a) == Fold(b)
    decreases |a|
  {
    if a == [] {
      assert |multiset(b)| == |b|;
    } else {
      var front, r := a[..|a| - 1], a[|a| - 1];
      assert a == front + [r];
      assert r in multiset(b);
      var i :| 0 <= i < |b| && b[i] == r;
      var left, right := b[..i], b[i + 1..];
      assert b == left + [r] + right;
      SameRest(front, r, left, right);
      FoldAnyOrder(front, left + right);
      FoldMoves(left, r, right);
    }
  }

  // ------------------------------------------------------------------------------------------
  // Runs

  /** An aggregation with the results it was made from. */
  datatype Account = Account(stats: Stats, results: seq<Result>)

  const EMPTY := Account(map[], [])

  /**
   The workers' accounts since their last report, the reports on their way, the master's account.  The
   results that were flushed and those that were lost with their worker are histories.
   */
  datatype State = State(
    workers: seq<Account>, reports: seq<Account>, master: Account, flushed: seq<Result>, lost: seq<Result>)

  /**
   A check ends in worker `w`, worker `w` reports, the `i`th report on its way arrives, the master
   flushes.  Worker `w` recycles inside the callback of a check: it exits before the callback comes to
   the figures, and what it has not reported goes with it.  Or it quits at another time.  A process
   that replaces it takes its place.
   */
  datatype Event =
    | Checked(w: nat, result: Result)
    | Reports(w: nat)
    | Arrives(i: nat)
    | Flush
    | Recycles(w: nat, result: Result)
    | Quits(w: nat)

  function Start(n: nat): State {
    State(seq(n, _ => EMPTY), [], EMPTY, [], [])
  }

  function Next(s: State, e: Event): State {
    match e
    case Checked(w, r) =>
      if w < |s.workers| then
        var a := s.workers[w];
        s.(workers := s.workers[w := Account(Record(a.stats, r), a.results + [r])])
      else s
    case Reports(w) =>
      if w < |s.workers| then
        s.(workers := s.workers[w := EMPTY], reports := s.reports + [s.workers[w]])
      else s
    case Arrives(i) =>
      if i < |s.reports| then
        s.(reports := Without(s.reports, i),
           master := Account(Merge(s.master.stats, s.reports[i].stats), s.master.results + s.reports[i].results))
      else s
    case Flush => s.(master := EMPTY, flushed := s.flushed + s.master.results)
    case Recycles(w, r) =>
      if w < |s.workers| then s.(workers := s.workers[w := EMPTY], lost := s.lost + s.workers[w].results + [r])
      else s
    case Quits(w) =>
      if w < |s.workers| then s.(workers := s.workers[w := EMPTY], lost := s.lost + s.workers[w].results)
      else s
  }

  function Run(n: nat, es: seq<Event>): State {
    if es == [] then Start(n) else Next(Run(n, es[..|es| - 1]), es[|es| - 1])
  }

  ghost predicate Honest(a: Account) { a.stats == Fold(a.results) }

  ghost predicate AllHonest(s: State) {
    && (forall w :: 0 <= w < |s.workers| ==> Honest(s.workers[w]))
    && (forall i :: 0 <= i < |s.reports| ==> Honest(s.reports[i]))
    && Honest(s.master)
  }

  lemma NextHonest(s: State, e: Event)
    requires AllHonest(s)
    ensures AllHonest(Next(s, e))
  {
    match e
    case Checked(w, r) =>
      if w < |s.workers| {
        FoldSnoc(s.workers[w].results, r);
      }
    case Arrives(i) =>
      if i < |s.reports| {
        MergeFold(s.master.results, s.reports[i].results);
      }
    case _ =>
  }

  lemma {:induction false} RunHonest(n: nat, es: seq<Event>)
    ensures AllHonest(Run(n, es))
  {
    if es != [] {
      RunHonest(n, es[..|es| - 1]);
      NextHonest(Run(n, es[..|es| - 1]), es[|es| - 1]);
    }
  }

  /**
   For any split of the results over workers and reporting intervals and any order of arrival, the
   master's statistics are the direct aggregation of all results that arrived since its last flush, in
   whatever order these are listed.
   */
  lemma {:induction false} MasterIsDirectFold(n: nat, es: seq<Event>, listed: seq<Result>)
    requires multiset(listed) == multiset(Run(n, es).master.results)
    ensures Run(n, es).master.stats == Fold(listed)
  {
    RunHonest(n, es);
    FoldAnyOrder(Run(n, es).master.results, listed);
  }

  // ------------------------------------------------------------------------------------------
  // Every result is counted once

  function Is(x: Result): Result -> nat { (r: Result) => if r == x then 1 else 0 }

  /** How often a result is among those of an account. */
  function Holds(x: Result): Account -> nat { (a: Account) => Weigh(a.results, Is(x)) }

  /** How often a result is anywhere. */
  function Everywhere(s: State, x: Result): nat {
    Weigh(s.workers, Holds(x)) + Weigh(s.reports, Holds(x)) + Weigh(s.master.results, Is(x))
    + Weigh(s.flushed, Is(x)) + Weigh(s.lost, Is(x))
  }

  /** The event ends a check of one of `n` workers. */
  predicate EndsCheck(e: Event, n: nat) { (e.Checked? || e.Recycles?) && e.w < n }

  /** The results of the checks that `n` workers made. */
  function Made(n: nat, es: seq<Event>): seq<Result> {
    if es == [] then []
    else
      var e := es[|es| - 1];
      Made(n, es[..|es| - 1]) + (if EndsCheck(e, n) then [e.result] else [])
  }

  function Counts(e: Event, n: nat, x: Result): nat {
    if EndsCheck(e, n) && e.result == x then 1 else 0
  }

  lemma CheckedCounts(s: State, w: nat, r: Result, x: Result)
    requires w < |s.workers|
    ensures Everywhere(Next(s, Checked(w, r)), x) == Everywhere(s, x) + Is(x)(r)
  {
    var a := s.workers[w];
    WeighUpdate(s.workers, w, Account(Record(a.stats, r), a.results + [r]), Holds(x));
    WeighSnoc(a.results, r, Is(x));
  }

  lemma ReportsCounts(s: State, w: nat, x: Result)
    requires w < |s.workers|
    ensures Everywhere(Next(s, Reports(w)), x) == Everywhere(s, x)
  {
    WeighUpdate(s.workers, w, EMPTY, Holds(x));
    WeighSnoc(s.reports, s.workers[w], Holds(x));
  }

  lemma ArrivesCounts(s: State, i: nat, x: Result)
    requires i < |s.reports|
    ensures Everywhere(Next(s, Arrives(i)), x) == Everywhere(s, x)
  {
    WeighUpdate(s.reports, i, EMPTY, Holds(x));
    WeighConcat(s.master.results, s.reports[i].results, Is(x));
  }

  /** A worker that exits: its figures join those lost. */
  lemma QuitsCounts(s: State, w: nat, x: Result)
    requires w < |s.workers|
    ensures Everywhere(Next(s, Quits(w)), x) == Everywhere(s, x)
  {
    WeighUpdate(s.workers, w, EMPTY, Holds(x));
    WeighConcat(s.lost, s.workers[w].results, Is(x));
  }

  /** One that exits in a callback takes the result at hand along. */
  lemma RecyclesCounts(s: State, w: nat, r: Result, x: Result)
    requires w < |s.workers|
    ensures Everywhere(Next(s, Recycles(w, r)), x) == Everywhere(s, x) + Is(x)(r)
  {
    QuitsCounts(s, w, x);
    WeighSnoc(s.lost + s.workers[w].results, r, Is(x));
  }

  lemma NextCounts(s: State, e: Event, x: Result)
    ensures Everywhere(Next(s, e), x) == Everywhere(s, x) + Counts(e, |s.workers|, x)
  {
    match e
    case Checked(w, r) => if w < |s.workers| { CheckedCounts(s, w, r, x); }
    case Reports(w) => if w < |s.workers| { ReportsCounts(s, w, x); }
    case Arrives(i) => if i < |s.reports| { ArrivesCounts(s, i, x); }
    case Flush => WeighConcat(s.flushed, s.master.results, Is(x));
    case Recycles(w, r) => if w < |s.workers| { RecyclesCounts(s, w, r, x); }
    case Quits(w) => if w < |s.workers| { QuitsCounts(s, w, x); }
  }

  lemma {:induction false} RunWidth(n: nat, es: seq<Event>)
    ensures |Run(n, es).workers| == n
  {
    if es != [] {
      RunWidth(n, es[..|es| - 1]);
    }
  }

  lemma MadeCounts(n: nat, es: seq<Event>, x: Result)
    requires es != []
    ensures Weigh(Made(n, es), Is(x)) == Weigh(Made(n, es[..|es| - 1]), Is(x)) + Counts(es[|es| - 1], n, x)
  {
    var e := es[|es| - 1];
    if EndsCheck(e, n) {
      WeighSnoc(Made(n, es[..|es| - 1]), e.result, Is(x));
    } else {
      assert Made(n, es) == Made(n, es[..|es| - 1]);
    }
  }

  /** At any moment each result made is in exactly one place: a worker, a report, the master, flushed, or lost. */
  lemma {:induction false} RunCounts(n: nat, es: seq<Event>, x: Result)
    ensures Everywhere(Run(n, es), x) == Weigh(Made(n, es), Is(x))
  {
    if es == [] {
      WeighNothing(Start(n).workers, Holds(x));
    } else {
      RunCounts(n, es[..|es| - 1], x);
      RunWidth(n, es[..|es| - 1]);
      NextCounts(Run(n, es[..|es| - 1]), es[|es| - 1], x);
      MadeCounts(n, es, x);
    }
  }

  // ------------------------------------------------------------------------------------------
  // What is lost

  /** The event takes no figures with it: no worker recycles, and one that quits has reported everything. */
  predicate LosesNothing(s: State, e: Event) {
    match e
    case Recycles(w, _) => w >= |s.workers|
    case Quits(w) => w < |s.workers| ==> s.workers[w].stats == map[]
    case _ => true
  }

  lemma NoResultsIff(a: Account)
    requires Honest(a)
    ensures a.stats == map[] <==> a.results == []
  {
    if a.results != [] {
      assert a.results[|a.results| - 1].status in a.stats;
    }
  }

  lemma LostStep(s: State, e: Event)
    requires AllHonest(s)
    ensures Next(s, e).lost == [] <==> s.lost == [] && LosesNothing(s, e)
  {
    if e.Quits? && e.w < |s.workers| {
      NoResultsIff(s.workers[e.w]);
    }
  }

  ghost predicate NoneLose(n: nat, es: seq<Event>) {
    forall k :: 0 <= k < |es| ==> LosesNothing(Run(n, es[..k]), es[k])
  }

  lemma NoneLoseSnoc(n: nat, es: seq<Event>, e: Event)
    ensures NoneLose(n, es + [e]) <==> NoneLose(n, es) && LosesNothing(Run(n, es), e)
  {
    var all := es + [e];
    assert all[..|es|] == es && all[|es|] == e;
    forall k | 0 <= k < |es| ensures all[..k] == es[..k] && all[k] == es[k] {
    }
  }

  /** Figures are lost if and only if a worker exits from a callback or with figures it has not reported. */
  lemma {:induction false} NothingLostIff(n: nat, es: seq<Event>)
    ensures Run(n, es).lost == [] <==> NoneLose(n, es)
  {
    if es != [] {
      var before, e := es[..|es| - 1], es[|es| - 1];
      NothingLostIff(n, before);
      RunHonest(n, before);
      LostStep(Run(n, before), e);
      NoneLoseSnoc(n, before, e);
      assert es == before + [e];
    }
  }

  /** The figures of a check by worker `v`, as its callback would add them. */
  function Measure(v: W.State, index: nat, rtt: int, code: int, errorCode: int, now: int): Result
    requires index < |v.arrCheck|
  {
    Result(W.Judge(v.config, v.arrCheck[index], rtt, code, now), code, errorCode, rtt)
  }

  /** What a callback of the worker at place `w` means for the figures. */
  function Callback(w: nat, v: W.State, index: nat, rtt: int, code: int, errorCode: int, now: int, overMemory: bool)
    : Event
    requires index < |v.arrCheck|
  {
    var r := Measure(v, index, rtt, code, errorCode, now);
    if W.ProcessResult(v, index, rtt, code, errorCode, now, overMemory).0.exit == W.Alive then Checked(w, r)
    else Recycles(w, r)
  }

  /** What happens to one process, from its start: its own steps, and the timer that reports its figures. */
  datatype Beat = Step(event: W.Event) | Timer

  ghost predicate Life(v: W.State, beats: seq<Beat>)
    decreases |beats|
  {
    beats == [] ||
    match beats[0]
    case Timer => Life(v, beats[1..])
    case Step(e) =>
      && W.Enabled(v, e) && (e.Result? ==> e.index < |v.arrCheck|)
      && Life(W.Next(v, e), beats[1..])
  }

  ghost function Lived(v: W.State, beats: seq<Beat>): W.State
    requires Life(v, beats)
    decreases |beats|
  {
    if beats == [] then v
    else match beats[0]
         case Timer => Lived(v, beats[1..])
         case Step(e) => Lived(W.Next(v, e), beats[1..])
  }

  /** What a step of the process at place `w` means for the figures. */
  ghost function StepEvents(w: nat, v: W.State, e: W.Event): seq<Event>
    requires e.Result? ==> e.index < |v.arrCheck|
  {
    match e
    case Result(index, rtt, code, errorCode, now, overMemory) =>
      [Callback(w, v, index, rtt, code, errorCode, now, overMemory)]
    case EvaporateAsked => if W.Evaporate(v).exit != W.Alive then [Quits(w)] else []
    case _ => []
  }

  ghost function LifeEvents(w: nat, v: W.State, beats: seq<Beat>): seq<Event>
    requires Life(v, beats)
    decreases |beats|
  {
    if beats == [] then []
    else match beats[0]
         case Timer => [Reports(w)] + LifeEvents(w, v, beats[1..])
         case Step(e) => StepEvents(w, v, e) + LifeEvents(w, W.Next(v, e), beats[1..])
  }

  /** The results that a process has measured since its last report, or had when it began. */
  ghost function Measured(v: W.State, had: seq<Result>, beats: seq<Beat>): seq<Result>
    requires Life(v, beats)
    decreases |beats|
  {
    if beats == [] then had
    else match beats[0]
         case Timer => Measured(v, [], beats[1..])
         case Step(e) => Measured(W.Next(v, e), StepMeasured(v, had, e), beats[1..])
  }

  ghost function StepMeasured(v: W.State, had: seq<Result>, e: W.Event): seq<Result>
    requires W.Enabled(v, e) && (e.Result? ==> e.index < |v.arrCheck|)
  {
    if W.Next(v, e).exit != W.Alive then []
    else if e.Result? then had + [Measure(v, e.index, e.rtt, e.code, e.errorCode, e.now)]
    else had
  }

  /** The events at place `w`. */
  function At(es: seq<Event>, w: nat): seq<Event> {
    if es == [] then []
    else
      var e := es[|es| - 1];
      At(es[..|es| - 1], w)
      + (if (e.Checked? || e.Reports? || e.Recycles? || e.Quits?) && e.w == w then [e] else [])
  }

  /** The results left at a place by its events. */
  function Left(had: seq<Result>, es: seq<Event>): seq<Result>
    decreases |es|
  {
    if es == [] then had
    else Left(if es[0].Checked? then had + [es[0].result] else [], es[1..])
  }

  lemma {:induction false} LeftConcat(had: seq<Result>, a: seq<Event>, b: seq<Event>)
    ensures Left(had, a + b) == Left(Left(had, a), b)
    decreases |a|
  {
    if a == [] {
      assert a + b == b;
    } else {
      assert (a + b)[1..] == a[1..] + b;
      LeftConcat(if a[0].Checked? then had + [a[0].result] else [], a[1..], b);
    }
  }

  lemma LeftOne(had: seq<Result>, e: Event)
    ensures Left(had, [e]) == if e.Checked? then had + [e.result] else []
  {
    assert [e][1..] == [];
  }

  /** What a worker's account holds depends on the events at its place only. */
  lemma {:induction false} AccountAt(n: nat, es: seq<Event>, w: nat)
    requires w < n
    ensures |Run(n, es).workers| == n && Run(n, es).workers[w].results == Left([], At(es, w))
  {
    if es != [] {
      var before, e := es[..|es| - 1], es[|es| - 1];
      AccountAt(n, before, w);
      LeftConcat([], At(before, w), [e]);
      LeftOne(Left([], At(before, w)), e);
      AccountStep(Run(n, before), e, w);
      assert At(before, w) + [] == At(before, w);
    }
  }

  lemma AccountStep(s: State, e: Event, w: nat)
    requires w < |s.workers|
    ensures |Next(s, e).workers| == |s.workers|
    ensures Next(s, e).workers[w].results
         == if (e.Checked? || e.Reports? || e.Recycles? || e.Quits?) && e.w == w
            then (if e.Checked? then s.workers[w].results + [e.result] else [])
            else s.workers[w].results
  {
  }

  /** The events of a process leave at its place what it has measured since its last report. */
  lemma {:induction false} LifeLeaves(w: nat, v: W.State, had: seq<Result>, beats: seq<Beat>)
    requires Life(v, beats) && v.exit == W.Alive
    ensures Left(had, LifeEvents(w, v, beats)) == Measured(v, had, beats)
    decreases |beats|
  {
    if beats != [] {
      match beats[0]
      case Timer =>
        LeftConcat(had, [Reports(w)], LifeEvents(w, v, beats[1..]));
        LeftOne(had, Reports(w));
        LifeLeaves(w, v, [], beats[1..]);
      case Step(e) =>
        var next := W.Next(v, e);
        LeftConcat(had, StepEvents(w, v, e), LifeEvents(w, next, beats[1..]));
        StepLeaves(w, v, had, e);
        if next.exit == W.Alive {
          LifeLeaves(w, next, Left(had, StepEvents(w, v, e)), beats[1..]);
        } else {
          DeadLeaves(w, next, beats[1..]);
        }
    }
  }

  lemma StepLeaves(w: nat, v: W.State, had: seq<Result>, e: W.Event)
    requires W.Enabled(v, e) && (e.Result? ==> e.index < |v.arrCheck|)
    ensures Left(had, StepEvents(w, v, e)) == StepMeasured(v, had, e)
  {
    match e
    case Result(index, rtt, code, errorCode, now, overMemory) =>
      LeftOne(had, Callback(w, v, index, rtt, code, errorCode, now, overMemory));
    case EvaporateAsked => LeftOne(had, Quits(w));
    case TimerFires => W.StartUpToConfig(v.(timer := false), W.Min(v.pointer + v.config.numToProcess, |v.arrCheck|));
    case _ =>
  }

  /** A process that has exited takes no step. */
  lemma {:induction false} DeadLeaves(w: nat, v: W.State, beats: seq<Beat>)
    requires Life(v, beats) && v.exit != W.Alive
    ensures Left([], LifeEvents(w, v, beats)) == [] == Measured(v, [], beats)
    decreases |beats|
  {
    if beats != [] {
      LeftConcat([], [Reports(w)], LifeEvents(w, v, beats[1..]));
      LeftOne([], Reports(w));
      DeadLeaves(w, v, beats[1..]);
    }
  }

  /** The events before a process began: none, or those of processes the last of which has exited. */
  predicate Vacated(es: seq<Event>) {
    es != [] ==> es[|es| - 1].Recycles? || es[|es| - 1].Quits?
  }

  lemma VacatedLeaves(es: seq<Event>)
    requires Vacated(es)
    ensures Left([], es) == []
  {
    if es != [] {
      assert es == es[..|es| - 1] + [es[|es| - 1]];
      LeftConcat([], es[..|es| - 1], [es[|es| - 1]]);
      LeftOne(Left([], es[..|es| - 1]), es[|es| - 1]);
    }
  }

  /** In any run in which the process at place `w` has lived through these beats, its account is what it measured. */
  lemma AccountIsMeasured(n: nat, es: seq<Event>, w: nat, before: seq<Event>, v: W.State, beats: seq<Beat>)
    requires w < n && Vacated(before) && v.exit == W.Alive && Life(v, beats)
    requires At(es, w) == before + LifeEvents(w, v, beats)
    ensures |Run(n, es).workers| == n && Run(n, es).workers[w].results == Measured(v, [], beats)
  {
    AccountAt(n, es, w);
    LeftConcat([], before, LifeEvents(w, v, beats));
    VacatedLeaves(before);
    LifeLeaves(w, v, [], beats);
  }

  /**
   Every routine recycle loses figures.  A process has been started at place `w` and lived through some
   beats, whatever the other workers did meanwhile.  A callback makes it exit if and only if it is the
   last one outstanding, nothing is left to start, and the worker is to retire; and then the result at
   hand and everything it measured since its last report are lost.
   */
  lemma RecycleLosesFigures(n: nat, es: seq<Event>, w: nat, before: seq<Event>, first: W.State, beats: seq<Beat>,
                            index: nat, rtt: int, code: int, errorCode: int, now: int, overMemory: bool)
    requires w < n && Vacated(before) && first.exit == W.Alive && Life(first, beats)
    requires At(es, w) == before + LifeEvents(w, first, beats)
    requires Lived(first, beats).exit == W.Alive && index < |Lived(first, beats).arrCheck|
    ensures
      var v := Lived(first, beats);
      var a := W.Take(v, index, rtt, code, errorCode, now);
      var exits := a.pointer >= |a.arrCheck| && W.Unprocessed(a.arrCheck) == 0
                   && (!a.availableForWork || W.Retiring(a, overMemory));
      var s, t := Run(n, es), Run(n, es + [Callback(w, v, index, rtt, code, errorCode, now, overMemory)]);
      t.lost == s.lost + (if exits then Measured(first, [], beats) + [Measure(v, index, rtt, code, errorCode, now)]
                          else [])
  {
    var v := Lived(first, beats);
    var e := Callback(w, v, index, rtt, code, errorCode, now, overMemory);
    ExitsIff(v, index, rtt, code, errorCode, now, overMemory);
    AccountIsMeasured(n, es, w, before, first, beats);
    LostToCallback(n, es, w, e);
  }

  lemma LostToCallback(n: nat, es: seq<Event>, w: nat, e: Event)
    requires (e.Checked? || e.Recycles?) && e.w == w < |Run(n, es).workers|
    ensures Run(n, es + [e]).lost
         == Run(n, es).lost + (if e.Recycles? then Run(n, es).workers[w].results + [e.result] else [])
  {
    assert (es + [e])[..|es|] == es;
  }

  lemma ExitsIff(v: W.State, index: nat, rtt: int, code: int, errorCode: int, now: int, overMemory: bool)
    requires v.exit == W.Alive && index < |v.arrCheck|
    ensures
      var a := W.Take(v, index, rtt, code, errorCode, now);
      W.ProcessResult(v, index, rtt, code, errorCode, now, overMemory).0.exit != W.Alive
      <==> a.pointer >= |a.arrCheck| && W.Unprocessed(a.arrCheck) == 0
           && (!a.availableForWork || W.Retiring(a, overMemory))
  {
  }

  /** One worker, one check, and the worker recycles in its callback: the check is never counted. */
  lemma RecycleInstance(r: Result)
    ensures Made(1, [Recycles(0, r)]) == [r]
    ensures Run(1, [Recycles(0, r), Reports(0), Arrives(0)]).master == EMPTY
    ensures Run(1, [Recycles(0, r), Reports(0), Arrives(0)]).lost == [r]
  {
    var es := [Recycles(0, r), Reports(0), Arrives(0)];
    assert es[..2] == [Recycles(0, r), Reports(0)] && es[..2][..1] == [Recycles(0, r)];
    assert [Recycles(0, r)][..0] == [];
    assert Run(1, [Recycles(0, r)]).workers == [EMPTY];
    assert Run(1, es[..2]).reports == [EMPTY];
  }
}
