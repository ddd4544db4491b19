/**
 The SPP prefetch filter and its accuracy counters (prefetcher/spp_dev2_helper.cc): which lines
 were prefetched, which of those were used, and the two global counters that are halved together.
 */
module SppFilter {

  const SLOTS: nat := 1024          // FILTER_SET
  const COUNTER_MAX: nat := 1023    // GLOBAL_COUNTER_MAX

  datatype RawFilter = Filter(valid: seq<bool>, useful: seq<bool>, tag: seq<nat>, pfIssued: nat, pfUseful: nat)
  type Filter = f: RawFilter | |f.valid| == |f.useful| == |f.tag| == SLOTS witness EmptyFilter()

  function EmptyFilter(): RawFilter {
    RawFilter.Filter(seq(SLOTS, _ => false), seq(SLOTS, _ => false), seq(SLOTS, _ => 0), 0, 0)
  }

  predicate Present(f: Filter, slot: nat, tag: nat)
    requires slot < SLOTS
  {
    (f.valid[slot] || f.useful[slot]) && f.tag[slot] == tag
  }

  /** SPP_L2C_PREFETCH: mark the slot, unless the line is already in the filter. */
  function Mark(f: Filter, slot: nat, tag: nat): Filter
    requires slot < SLOTS
  {
    if Present(f, slot, tag) then f
    else f.(valid := f.valid[slot := true], useful := f.useful[slot := false], tag := f.tag[slot := tag])
  }

  /** Count an L2 prefetch, halving both counters on overflow. */
  function CountIssue(f: Filter): Filter {
    if f.pfIssued + 1 > COUNTER_MAX then f.(pfIssued := (f.pfIssued + 1) / 2, pfUseful := f.pfUseful / 2)
    else f.(pfIssued := f.pfIssued + 1)
  }

  datatype Request = L2Prefetch | LlcPrefetch | Demand | Evict

  /** check(), together with the count of an accepted L2 prefetch. */
  function Check(f: Filter, slot: nat, tag: nat, r: Request): Filter
    requires slot < SLOTS
  {
    match r
    case L2Prefetch => if Present(f, slot, tag) then f else CountIssue(Mark(f, slot, tag))
    case LlcPrefetch => f
    case Demand =>
      if f.tag[slot] == tag && !f.useful[slot]
      then f.(useful := f.useful[slot := true], pfUseful := if f.valid[slot] then f.pfUseful + 1 else f.pfUseful)
      else f
    case Evict =>
      f.(valid := f.valid[slot := false], useful := f.useful[slot := false], tag := f.tag[slot := 0],
         pfUseful := if f.valid[slot] && !f.useful[slot] && f.pfUseful > 0 then f.pfUseful - 1 else f.pfUseful)
  }

  /** The number of slots prefetched and not yet used. */
  function Unused(valid: seq<bool>, useful: seq<bool>): (r: nat)
    requires |valid| == |useful|
    ensures r <= |valid|
  {
    if valid == [] then 0
    else
      var n := |valid| - 1;
      Unused(valid[..n], useful[..n]) + if valid[n] && !useful[n] then 1 else 0
  }

  function UnusedIn(f: Filter): nat { Unused(f.valid, f.useful) }

  ghost predicate Accounted(f: Filter) {
    f.pfIssued <= COUNTER_MAX && f.pfUseful + UnusedIn(f) <= f.pfIssued + SLOTS
  }

  lemma {:induction false} UnusedChange(valid: seq<bool>, useful: seq<bool>, slot: nat, v: bool, u: bool)
    requires slot < |valid| == |useful|
    ensures Unused(valid[slot := v], useful[slot := u]) ==
      Unused(valid, useful) + (if v && !u then 1 else 0) - if valid[slot] && !useful[slot] then 1 else 0
  {
    var n := |valid| - 1;
    var valid', useful' := valid[slot := v], useful[slot := u];
    if slot < n {
      UnusedChange(valid[..n], useful[..n], slot, v, u);
      assert valid'[..n] == valid[..n][slot := v] && useful'[..n] == useful[..n][slot := u];
    } else {
      assert valid'[..n] == valid[..n] && useful'[..n] == useful[..n];
    }
  }

  /** Halving keeps the account because no more than SLOTS prefetches are unused. */
  lemma CountIssueKeeps(f: Filter)
    requires f.pfIssued <= COUNTER_MAX && f.pfUseful + UnusedIn(f) <= f.pfIssued + 1 + SLOTS
    ensures Accounted(CountIssue(f))
  {
  }

  lemma CheckKeeps(f: Filter, slot: nat, tag: nat, r: Request)
    requires Accounted(f) && slot < SLOTS
    ensures Accounted(Check(f, slot, tag, r))
  {
    var g := if r.L2Prefetch? then Mark(f, slot, tag) else Check(f, slot, tag, r);
    UnusedChange(f.valid, f.useful, slot, g.valid[slot], g.useful[slot]);
    assert g.valid == f.valid[slot := g.valid[slot]] && g.useful == f.useful[slot := g.useful[slot]];
    if r.L2Prefetch? { CountIssueKeeps(g); }
  }

  datatype Event = Event(slot: nat, tag: nat, request: Request)

  ghost predicate Events(es: seq<Event>) { forall i :: 0 <= i < |es| ==> es[i].slot < SLOTS }

  function After(es: seq<Event>): Filter
    requires Events(es)
  {
    if es == [] then EmptyFilter()
    else var e := es[|es| - 1]; Check(After(es[..|es| - 1]), e.slot, e.tag, e.request)
  }

  /** Over any sequence of filter requests the issue counter stays within ten bits, and useful plus
      unused prefetches never exceed the issued ones by more than the filter size. */
  lemma {:induction false} AccountedAlways(es: seq<Event>)
    requires Events(es)
    ensures After(es).pfIssued <= COUNTER_MAX
    ensures After(es).pfUseful + UnusedIn(After(es)) <= After(es).pfIssued + SLOTS
  {
    if es == [] {
      EmptyAccounted();
    } else {
      AccountedAlways(es[..|es| - 1]);
      var e := es[|es| - 1];
      CheckKeeps(After(es[..|es| - 1]), e.slot, e.tag, e.request);
    }
  }

  lemma {:induction false} NoneUnused(valid: seq<bool>, useful: seq<bool>)
    requires |valid| == |useful| && forall i :: 0 <= i < |valid| ==> !valid[i]
    ensures Unused(valid, useful) == 0
  {
    if valid != [] { NoneUnused(valid[..|valid| - 1], useful[..|valid| - 1]); }
  }

  lemma EmptyAccounted()
    ensures Accounted(EmptyFilter())
  {
    NoneUnused(EmptyFilter().valid, EmptyFilter().useful);
  }

  // ---------------------------------------------------------------------------------------------
  // The accuracy can exceed 100 percent

  function Accuracy(f: Filter): nat { if f.pfIssued > 0 then 100 * f.pfUseful / f.pfIssued else 0 }

  /** Prefetch the first n slots, then demand the first m of them. */
  function Prefetches(n: nat): (r: seq<Event>)
    requires n <= SLOTS
    ensures |r| == n && Events(r)
  {
    if n == 0 then [] else Prefetches(n - 1) + [Event(n - 1, 1, L2Prefetch)]
  }

  function Demands(m: nat): (r: seq<Event>)
    requires m <= SLOTS
    ensures |r| == SLOTS + m && Events(r)
  {
    if m == 0 then Prefetches(SLOTS) else Demands(m - 1) + [Event(m - 1, 1, Demand)]
  }

  /** The first n slots prefetched, none used. */
  ghost predicate Prefetched(f: Filter, n: nat) {
    && (forall i :: 0 <= i < SLOTS ==> (f.valid[i] <==> i < n) && !f.useful[i] && f.tag[i] == if i < n then 1 else 0)
    && f.pfUseful == 0 && f.pfIssued == if n == SLOTS then SLOTS / 2 else n
  }

  lemma PrefetchStep(f: Filter, n: nat)
    requires n < SLOTS && Prefetched(f, n)
    ensures Prefetched(Check(f, n, 1, L2Prefetch), n + 1)
  {
  }

  lemma {:induction false} AfterPrefetches(n: nat)
    requires n <= SLOTS
    ensures Prefetched(After(Prefetches(n)), n)
  {
    if n > 0 {
      AfterPrefetches(n - 1);
      assert Prefetches(n)[..n - 1] == Prefetches(n - 1);
      PrefetchStep(After(Prefetches(n - 1)), n - 1);
    }
  }

  /** Every slot prefetched, the first m of them used. */
  ghost predicate Used(f: Filter, m: nat) {
    && (forall i :: 0 <= i < SLOTS ==> f.valid[i] && (f.useful[i] <==> i < m) && f.tag[i] == 1)
    && f.pfUseful == m && f.pfIssued == SLOTS / 2
  }

  lemma DemandStep(f: Filter, m: nat)
    requires m < SLOTS && Used(f, m)
    ensures Used(Check(f, m, 1, Demand), m + 1)
  {
  }

  lemma {:induction false} AfterDemands(m: nat)
    requires m <= SLOTS
    ensures Used(After(Demands(m)), m)
  {
    if m == 0 {
      AfterPrefetches(SLOTS);
    } else {
      AfterDemands(m - 1);
      assert Demands(m)[..SLOTS + m - 1] == Demands(m - 1);
      DemandStep(After(Demands(m - 1)), m - 1);
    }
  }

  /** Filling the filter halves pf_issued once; demanding every line then doubles the accuracy. */
  lemma AccuracyCanReach200()
    ensures Events(Demands(SLOTS)) && Accuracy(After(Demands(SLOTS))) == 200
  {
    AfterDemands(SLOTS);
  }
}
