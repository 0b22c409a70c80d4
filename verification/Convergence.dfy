/** Whole synchronization runs: every exchange is safe, exchanges at the highest differing
    date make progress, and runs of them end in the last-writer-wins join of both stores. */
module Convergence {
  import opened Store
  import opened StoreInvariants
  import opened Registers
  import opened Views
  import opened Merging
  import opened Listing
  import opened Summaries
  import opened SummaryMeaning
  import opened Protocol

  lemma CompatibleTurns(a: Db, b: Db, all: iset<Entry>, ar: Arity)
    requires Compatible(a, b, all, ar)
    ensures Compatible(b, a, all, ar)
  {
    hide View, Valid, KnowsSigners, Understands, Within, UniquelySigned;
    assert View(a).Keys + View(b).Keys == View(b).Keys + View(a).Keys;
  }

  lemma PairedTurns(a: Db, b: Db, all: iset<Entry>, ar: Arity)
    requires Paired(a, b, all, ar)
    ensures Paired(b, a, all, ar)
  {
    hide Compatible;
    CompatibleTurns(a, b, all, ar);
  }

  lemma DifferingTurns(a: Register, b: Register)
    ensures Differing(a, b) == Differing(b, a)
  {
  }

  /** Whatever names are asked for and in whatever order the replies come, tied opinions or
      not: nothing fails, and the receiver's view takes over what it is sent. */
  lemma ExchangePuts(a: Db, b: Db, names: seq<string>, date: nat, all: iset<Entry>, ar: Arity)
    requires Compatible(a, b, all, ar)
    ensures var (b', r) := DeliverAll(a, b, names, date);
            var es := Carried(a, names, date);
            && r.Done? && Compatible(a, b', all, ar)
            && View(b') == PutAll(View(b), es)
            && (forall e :: e in es <==> exists n | n in names :: OnNameAndDate(View(a), e, n, date))
            && (forall e | e in es :: e.key in View(a) && View(a)[e.key] == e.stored)
  {
    hide View, ValidTables, CacheCovers, KnowsSigners, Understands, Within, DeliverAll, OnNameAndDate, Carried,
      StatementsGrown, UniquelySigned;
    var va, vb := View(a), View(b);
    UnderstandsLess(b, va.Keys + vb.Keys, va.Keys);
    DeliverAllPuts(a, b, names, date, ar);
    var b' := DeliverAll(a, b, names, date).0;
    var es := Carried(a, names, date);
    CarriedIsHeld(a, es, names, date);
    HeldIsWithin(va, es, all);
    PutAllWithin(vb, es, all);
    KnowledgeStays(b, b');
    KeysAfter(vb, es, va);
    UnderstandsLess(a, va.Keys + vb.Keys, va.Keys + View(b').Keys);
    UnderstandsMore(b, b', va.Keys + vb.Keys, va.Keys + View(b').Keys);
  }

  lemma HeldIsWithin(v: Register, es: seq<Entry>, all: iset<Entry>)
    requires Within(v, all) && forall e | e in es :: e.key in v && v[e.key] == e.stored
    ensures forall e | e in es :: e in all
  {
    forall e | e in es ensures e in all {
      assert e == Entry(e.key, v[e.key]);
    }
  }

  /** Without ties the join of both stores stays, no new difference appears, and a carried
      opinion that is newer than what the receiver holds settles its key. */
  lemma ExchangeIsSafe(a: Db, b: Db, names: seq<string>, date: nat, all: iset<Entry>, ar: Arity)
    requires Paired(a, b, all, ar)
    ensures var (b', r) := DeliverAll(a, b, names, date);
            var (va, vb, vb') := (View(a), View(b), View(b'));
            && r.Done? && Paired(a, b', all, ar)
            && vb' == PutAll(vb, Carried(a, names, date))
            && LaterOf(va, vb') == LaterOf(va, vb)
            && Differing(va, vb') <= Differing(va, vb)
            && (forall n, e | n in names && OnNameAndDate(va, e, n, date) && Takes(vb, e) ::
                  e.key in Differing(va, vb) && e.key !in Differing(va, vb'))
  {
    hide View, Valid, KnowsSigners, Understands, Within, TieFree, DeliverAll, Takes, OnNameAndDate, Carried, LaterOf,
      Differing, PutAll, UniquelySigned;
    ExchangePuts(a, b, names, date, all, ar);
    MergeProgress(View(b), View(a), Carried(a, names, date), all);
  }

  lemma UnderstandsLess(db: Db, keys: set<Key>, fewer: set<Key>)
    requires Understands(db, keys) && fewer <= keys
    ensures Understands(db, fewer)
  {
    hide TemplateStored, ContentsOf;
  }

  lemma CarriedIsHeld(a: Db, es: seq<Entry>, names: seq<string>, date: nat)
    requires forall e :: e in es <==> exists n | n in names :: OnNameAndDate(View(a), e, n, date)
    ensures forall e | e in es :: e.key in View(a) && View(a)[e.key] == e.stored
  {
    hide View;
  }

  lemma KeysAfter(vb: Register, es: seq<Entry>, va: Register)
    requires forall e | e in es :: e.key in va
    ensures PutAll(vb, es).Keys <= vb.Keys + va.Keys
  {
    forall k | k in PutAll(vb, es) ensures k in vb || k in va {
      PutAllIsNewest(vb, es, k);
    }
  }

  ghost predicate Lists(names: seq<string>, wanted: set<string>) {
    forall n :: n in names <==> n in wanted
  }

  /** One announcement of a date each way, with the requests it causes: first `b` catches up
      with `a`, then `a` with `b`. */
  datatype Round = Round(date: nat, byB: seq<string>, byA: seq<string>)

  ghost predicate IsRound(a: Db, b: Db, r: Round) {
    var b' := DeliverAll(a, b, r.byB, r.date).0;
    && Lists(r.byB, Requested(GetSyncInfos(b, r.date), GetSyncInfos(a, r.date)))
    && Lists(r.byA, Requested(GetSyncInfos(a, r.date), GetSyncInfos(b', r.date)))
  }

  function RoundEnd(a: Db, b: Db, r: Round): (Db, Db) {
    var b' := DeliverAll(a, b, r.byB, r.date).0;
    (DeliverAll(b', a, r.byA, r.date).0, b')
  }

  /** Any round, tied opinions or not, leaves a pair that can go on. */
  lemma RoundIsPossible(a: Db, b: Db, r: Round, all: iset<Entry>, ar: Arity)
    requires Compatible(a, b, all, ar)
    ensures var (a', b') := RoundEnd(a, b, r); Compatible(a', b', all, ar)
  {
    hide View, DeliverAll, Compatible, Carried, PutAll, OnNameAndDate;
    ExchangePuts(a, b, r.byB, r.date, all, ar);
    var b' := DeliverAll(a, b, r.byB, r.date).0;
    CompatibleTurns(a, b', all, ar);
    ExchangePuts(b', a, r.byA, r.date, all, ar);
    CompatibleTurns(b', DeliverAll(b', a, r.byA, r.date).0, all, ar);
  }

  /** Any round keeps the pair sound, keeps the join, and brings no new difference. */
  lemma RoundIsSafe(a: Db, b: Db, r: Round, all: iset<Entry>, ar: Arity)
    requires Paired(a, b, all, ar)
    ensures var (a', b') := RoundEnd(a, b, r);
            && Paired(a', b', all, ar)
            && LaterOf(View(a'), View(b')) == LaterOf(View(a), View(b))
            && Differing(View(a'), View(b')) <= Differing(View(a), View(b))
  {
    hide View, LaterOf, Differing, DeliverAll, Valid, KnowsSigners, Understands, Within, Carried, PutAll, Takes,
      OnNameAndDate;
    ExchangeIsSafe(a, b, r.byB, r.date, all, ar);
    var b' := DeliverAll(a, b, r.byB, r.date).0;
    PairedTurns(a, b', all, ar);
    ExchangeIsSafe(b', a, r.byA, r.date, all, ar);
    var a' := DeliverAll(b', a, r.byA, r.date).0;
    PairedTurns(b', a', all, ar);
    JoinTurns(a, b', all, ar);
    JoinTurns(a', b', all, ar);
    DifferingTurns(View(a), View(b'));
    DifferingTurns(View(a'), View(b'));
  }

  lemma JoinTurns(a: Db, b: Db, all: iset<Entry>, ar: Arity)
    requires Paired(a, b, all, ar)
    ensures LaterOf(View(a), View(b)) == LaterOf(View(b), View(a))
  {
    hide View, Valid, KnowsSigners, Understands;
    JoinCommutes(View(a), View(b), all);
  }

  /** At the highest date on which the stores differ, announcing it both ways makes at least
      one node request, and the round settles at least one differing key. */
  lemma RoundMakesProgress(a: Db, b: Db, r: Round, all: iset<Entry>, ar: Arity)
    requires Paired(a, b, all, ar) && IsRound(a, b, r) && TopDate(View(a), View(b), r.date)
    ensures r.byB != [] || r.byA != []
    ensures var (a', b') := RoundEnd(a, b, r); Differing(View(a'), View(b')) < Differing(View(a), View(b))
  {
    hide View, LaterOf, Differing, DeliverAll, Valid, KnowsSigners, Understands, Within, SameOn, UniquelySigned, Carried,
      GetSyncInfos, OnNameAndDate, Takes, Wants, Requested, PutAll;
    var va, vb := View(a), View(b);
    RoundIsSafe(a, b, r, all, ar);
    ExchangePuts(a, b, r.byB, r.date, all, ar);
    ExchangeIsSafe(a, b, r.byB, r.date, all, ar);
    var b' := DeliverAll(a, b, r.byB, r.date).0;
    PairedTurns(a, b', all, ar);
    ExchangeIsSafe(b', a, r.byA, r.date, all, ar);
    DifferingTurns(va, View(b'));
    DifferingTurns(View(RoundEnd(a, b, r).0), View(b'));
    var side, e := SomeoneLearns(a, b, r.date, all, ar);
    if side {
      assert e.key.statement.name in r.byB;
    } else if exists f | f in Carried(a, r.byB, r.date) :: Takes(vb, f) {
      var f :| f in Carried(a, r.byB, r.date) && Takes(vb, f);
      assert exists n | n in r.byB :: OnNameAndDate(va, f, n, r.date);
    } else {
      NothingTaken(vb, Carried(a, r.byB, r.date));
      assert View(b') == vb;
      var n := e.key.statement.name;
      WantsIsRequested(a, b, n, r.date, all, ar);
      WantsIsRequested(a, b', n, r.date, all, ar);
      assert n in r.byA;
    }
  }

  lemma WantsIsRequested(own: Db, other: Db, name: string, date: nat, all: iset<Entry>, ar: Arity)
    requires Compatible(own, other, all, ar)
    ensures name in Requested(GetSyncInfos(own, date), GetSyncInfos(other, date)) <==> Wants(View(own), View(other), name, date)
  {
    hide View, Requested, GetSyncInfos, Wants, ValidTables, CacheCovers, KnowsSigners, Understands, UniquelySigned, Within;
    SignedIsDistinct(View(own), all);
    SignedIsDistinct(View(other), all);
    RequestMeans(own, other, name, date, ar);
  }

  /** `b` requests something newer than it holds from `a`, or `a` from `b`. */
  lemma SomeoneLearns(a: Db, b: Db, date: nat, all: iset<Entry>, ar: Arity) returns (side: bool, e: Entry)
    requires Paired(a, b, all, ar) && TopDate(View(a), View(b), date)
    ensures var n := e.key.statement.name;
            if side then
              && n in Requested(GetSyncInfos(b, date), GetSyncInfos(a, date))
              && OnNameAndDate(View(a), e, n, date) && Takes(View(b), e)
            else
              && Wants(View(a), View(b), n, date)
              && OnNameAndDate(View(b), e, n, date) && Takes(View(a), e)
  {
    hide View, Requested, GetSyncInfos, Wants, Valid, KnowsSigners, Understands, UniquelySigned, Within, SameOn, Takes;
    var va, vb := View(a), View(b);
    PairedTurns(a, b, all, ar);
    var n := SomeRequest(va, vb, date, all);
    if Wants(vb, va, n, date) {
      e := RequestIsProductive(vb, va, n, date, all) by { SameTurns(va, vb); }
      side := OnNameAndDate(va, e, n, date) && Takes(vb, e);
      WantsIsRequested(b, a, n, date, all, ar);
    } else {
      e := RequestIsProductive(va, vb, n, date, all);
      side := !(OnNameAndDate(vb, e, n, date) && Takes(va, e));
      WantsIsRequested(b, a, n, date, all, ar);
    }
  }

  lemma SameTurns(a: Register, b: Register)
    ensures forall date: nat :: SameOn(a, b, date) == SameOn(b, a, date)
  {
  }

  /* ---- runs ---- */

  /** Rounds one after the other, each at the highest date that still differs. */
  ghost predicate IsRun(a: Db, b: Db, rounds: seq<Round>)
    decreases |rounds|
  {
    rounds != [] ==>
      var (a', b') := RoundEnd(a, b, rounds[0]);
      IsRound(a, b, rounds[0]) && TopDate(View(a), View(b), rounds[0].date) && IsRun(a', b', rounds[1..])
  }

  function RunEnd(a: Db, b: Db, rounds: seq<Round>): (Db, Db)
    decreases |rounds|
  {
    if rounds == [] then (a, b)
    else
      var (a', b') := RoundEnd(a, b, rounds[0]);
      RunEnd(a', b', rounds[1..])
  }

  /** As long as the stores differ there is a highest date on which they do. */
  lemma {:induction false} HighestDate(a: Register, b: Register, bound: nat) returns (date: nat)
    requires a != b && forall later: nat | later >= bound :: SameOn(a, b, later)
    ensures TopDate(a, b, date)
  {
    if bound == 0 {
      assert forall d: nat :: SameOn(a, b, d);
      SameEverywhere(a, b);
    } else if SameOn(a, b, bound - 1) {
      date := HighestDate(a, b, bound - 1);
    } else {
      date := bound - 1;
    }
  }

  lemma {:induction false} ListSet(s: set<string>) returns (names: seq<string>)
    ensures Lists(names, s)
  {
    if s == {} {
      names := [];
    } else {
      var n :| n in s;
      names := ListSet(s - {n});
      names := [n] + names;
    }
  }

  /** While the stores differ, another round can be run. */
  lemma NextRound(a: Db, b: Db) returns (r: Round)
    requires View(a) != View(b)
    ensures IsRound(a, b, r) && TopDate(View(a), View(b), r.date)
  {
    hide View, SameOn, DeliverAll, Requested, GetSyncInfos;
    assert forall later: nat | later >= 0x1_0000_0000 :: SameOn(View(a), View(b), later) by { NoLaterDates(View(a), View(b)); }
    var date := HighestDate(View(a), View(b), 0x1_0000_0000);
    var byB := ListSet(Requested(GetSyncInfos(b, date), GetSyncInfos(a, date)));
    var b' := DeliverAll(a, b, byB, date).0;
    var byA := ListSet(Requested(GetSyncInfos(a, date), GetSyncInfos(b', date)));
    r := Round(date, byB, byA);
  }

  lemma NoLaterDates(a: Register, b: Register)
    ensures forall later: nat | later >= 0x1_0000_0000 :: SameOn(a, b, later)
  {
  }

  /** How many of the rounds, whatever the others are, follow an announcement of the date that
      was the highest differing one at the time. */
  ghost function TopRounds(a: Db, b: Db, rounds: seq<Round>): nat
    decreases |rounds|
  {
    if rounds == [] then 0
    else
      var (a', b') := RoundEnd(a, b, rounds[0]);
      (if IsRound(a, b, rounds[0]) && TopDate(View(a), View(b), rounds[0].date) then 1 else 0)
      + TopRounds(a', b', rounds[1..])
  }

  lemma {:induction false} RunsAreTopRounds(a: Db, b: Db, rounds: seq<Round>)
    ensures IsRun(a, b, rounds) <==> TopRounds(a, b, rounds) == |rounds|
    ensures TopRounds(a, b, rounds) <= |rounds|
    decreases |rounds|
  {
    hide View, RoundEnd, IsRound, TopDate;
    if rounds != [] {
      var (a1, b1) := RoundEnd(a, b, rounds[0]);
      RunsAreTopRounds(a1, b1, rounds[1..]);
    }
  }

  /** Rounds on any dates and for any names keep the join and open no new difference; each
      one on the highest differing date settles at least one key. */
  lemma {:induction false} RoundsSettleKeys(a: Db, b: Db, rounds: seq<Round>, all: iset<Entry>, ar: Arity)
    requires Paired(a, b, all, ar)
    ensures var (a', b') := RunEnd(a, b, rounds);
            && Paired(a', b', all, ar)
            && LaterOf(View(a'), View(b')) == LaterOf(View(a), View(b))
            && TopRounds(a, b, rounds) + |Differing(View(a'), View(b'))| <= |Differing(View(a), View(b))|
    decreases |rounds|
  {
    hide View, LaterOf, Differing, RoundEnd, IsRound, Paired, TopDate;
    if rounds != [] {
      var (a1, b1) := RoundEnd(a, b, rounds[0]);
      RoundIsSafe(a, b, rounds[0], all, ar);
      SubsetSize(Differing(View(a1), View(b1)), Differing(View(a), View(b)));
      if IsRound(a, b, rounds[0]) && TopDate(View(a), View(b), rounds[0].date) {
        RoundMakesProgress(a, b, rounds[0], all, ar);
        ProperSubsetSize(Differing(View(a1), View(b1)), Differing(View(a), View(b)));
      }
      RoundsSettleKeys(a1, b1, rounds[1..], all, ar);
    }
  }

  /** As many rounds on the then highest differing date as there were differing keys are
      enough, whatever rounds lie between: there never are more of them, and with that many
      both stores hold the join. */
  lemma EnoughRoundsConverge(a: Db, b: Db, rounds: seq<Round>, all: iset<Entry>, ar: Arity)
    requires Paired(a, b, all, ar)
    ensures TopRounds(a, b, rounds) <= |Differing(View(a), View(b))|
    ensures var (a', b') := RunEnd(a, b, rounds);
            && (TopRounds(a, b, rounds) == |Differing(View(a), View(b))| ==> View(a') == View(b'))
            && (View(a') == View(b') ==> View(a') == LaterOf(View(a), View(b)))
  {
    hide View, LaterOf, Differing, Paired, TopRounds, RunEnd;
    RoundsSettleKeys(a, b, rounds, all, ar);
    var (a', b') := RunEnd(a, b, rounds);
    if TopRounds(a, b, rounds) == |Differing(View(a), View(b))| {
      NothingDiffers(View(a'), View(b'));
    }
    if View(a') == View(b') { JoinSelf(View(a')); }
  }

  lemma NothingDiffers(a: Register, b: Register)
    requires |Differing(a, b)| == 0
    ensures a == b
  {
    assert Differing(a, b) == {};
    forall k | k in a.Keys + b.Keys ensures k in a && k in b && a[k] == b[k] {
      assert k !in Differing(a, b);
    }
    assert a.Keys == b.Keys;
  }

  lemma ProperSubsetSize<T>(x: set<T>, y: set<T>)
    requires x < y
    ensures |x| < |y|
  {
    SubsetSize(x, y);
  }

  /** Stores that are not tied apart may count on what both hold being free of ties. */
  lemma UntiedIsPaired(a: Db, b: Db, all: iset<Entry>, ar: Arity) returns (held: iset<Entry>)
    requires Compatible(a, b, all, ar) && !TiedApart(View(a), View(b))
    ensures Paired(a, b, held, ar)
  {
    hide View, Valid, KnowsSigners, Understands, TiedApart, TieFree;
    held := HeldBy(View(a), View(b));
    UntiedIsTieFree(View(a), View(b));
    assert forall e | e in held :: e in all;
  }

  /** Without tied opinions, a run that cannot be continued has ended with both stores holding
      the join: the later opinion of every signer on every statement. It has at most as many
      rounds as there were differing keys. */
  lemma RunsConverge(a: Db, b: Db, all: iset<Entry>, ar: Arity)
    requires Compatible(a, b, all, ar) && !TiedApart(View(a), View(b))
    ensures forall rounds | IsRun(a, b, rounds) ::
              var (a', b') := RunEnd(a, b, rounds);
              && |rounds| <= |Differing(View(a), View(b))|
              && (View(a') == View(b') <==> !exists r :: IsRound(a', b', r) && TopDate(View(a'), View(b'), r.date))
              && (View(a') == View(b') ==> View(a') == LaterOf(View(a), View(b)))
  {
    hide View, LaterOf, Differing, Compatible, TiedApart, Paired, IsRound, TopDate, IsRun, RunEnd, TopRounds;
    var held := UntiedIsPaired(a, b, all, ar);
    forall rounds | IsRun(a, b, rounds)
      ensures var (a', b') := RunEnd(a, b, rounds);
              && |rounds| <= |Differing(View(a), View(b))|
              && (View(a') == View(b') <==> !exists r :: IsRound(a', b', r) && TopDate(View(a'), View(b'), r.date))
              && (View(a') == View(b') ==> View(a') == LaterOf(View(a), View(b)))
    {
      EnoughRoundsConverge(a, b, rounds, held, ar);
      RunsAreTopRounds(a, b, rounds);
      var (a', b') := RunEnd(a, b, rounds);
      if View(a') == View(b') {
        NoTopDate(View(a'));
      } else {
        var r := NextRound(a', b');
      }
    }
  }

  lemma NoTopDate(v: Register)
    ensures forall date: nat :: !TopDate(v, v, date)
  {
    SameEverywhere(v, v);
  }

  lemma {:induction false} PairedRunConverges(a: Db, b: Db, all: iset<Entry>, ar: Arity) returns (rounds: seq<Round>)
    requires Paired(a, b, all, ar)
    ensures IsRun(a, b, rounds)
    ensures var (a', b') := RunEnd(a, b, rounds); View(a') == View(b') == LaterOf(View(a), View(b))
    decreases Differing(View(a), View(b))
  {
    hide View, LaterOf, Differing, Paired, IsRound, TopDate, RoundEnd;
    if View(a) == View(b) {
      rounds := [];
      JoinSelf(View(a));
    } else {
      var r := NextRound(a, b);
      RoundIsSafe(a, b, r, all, ar);
      RoundMakesProgress(a, b, r, all, ar);
      var (a1, b1) := RoundEnd(a, b, r);
      var rest := PairedRunConverges(a1, b1, all, ar);
      rounds := [r] + rest;
      assert rounds[1..] == rest;
    }
  }

  /** From every pair of stores that are not tied apart some run leads to agreement on the join. */
  lemma SomeRunConverges(a: Db, b: Db, all: iset<Entry>, ar: Arity) returns (rounds: seq<Round>)
    requires Compatible(a, b, all, ar) && !TiedApart(View(a), View(b))
    ensures IsRun(a, b, rounds)
    ensures var (a', b') := RunEnd(a, b, rounds); View(a') == View(b') == LaterOf(View(a), View(b))
  {
    hide View, LaterOf, Compatible, TiedApart, Paired, IsRun, RunEnd;
    var held := UntiedIsPaired(a, b, all, ar);
    rounds := PairedRunConverges(a, b, held, ar);
  }

  /* ---- ties ---- */

  lemma RoundKeepsTies(a: Db, b: Db, r: Round, all: iset<Entry>, ar: Arity)
    requires Compatible(a, b, all, ar) && TiedApart(View(a), View(b))
    ensures var (a', b') := RoundEnd(a, b, r); TiedApart(View(a'), View(b'))
  {
    hide View, DeliverAll, Compatible, Carried, PutAll, OnNameAndDate, Tied;
    var va, vb := View(a), View(b);
    var k :| k in va && k in vb && Tied(va[k], vb[k]) && va[k] != vb[k];
    TiedTurns(va[k], vb[k]);
    ExchangePuts(a, b, r.byB, r.date, all, ar);
    var b' := DeliverAll(a, b, r.byB, r.date).0;
    TiedStaysApart(vb, va, Carried(a, r.byB, r.date), k);
    CompatibleTurns(a, b', all, ar);
    ExchangePuts(b', a, r.byA, r.date, all, ar);
    TiedStaysApart(va, View(b'), Carried(b', r.byA, r.date), k);
  }

  lemma TiedTurns(s: Stored, t: Stored)
    ensures Tied(s, t) == Tied(t, s)
  {
  }

  lemma {:induction false} RoundsKeepTies(a: Db, b: Db, rounds: seq<Round>, all: iset<Entry>, ar: Arity)
    requires Compatible(a, b, all, ar)
    ensures var (a', b') := RunEnd(a, b, rounds);
            && Compatible(a', b', all, ar)
            && (TiedApart(View(a), View(b)) ==> TiedApart(View(a'), View(b')))
    decreases |rounds|
  {
    hide View, RoundEnd, Compatible, TiedApart;
    if rounds != [] {
      var (a1, b1) := RoundEnd(a, b, rounds[0]);
      RoundIsPossible(a, b, rounds[0], all, ar);
      if TiedApart(View(a), View(b)) { RoundKeepsTies(a, b, rounds[0], all, ar); }
      RoundsKeepTies(a1, b1, rounds[1..], all, ar);
    }
  }

  /** Announcing this date in at least one direction still causes a request. */
  ghost predicate Unsettled(a: Db, b: Db, date: nat) {
    || Requested(GetSyncInfos(a, date), GetSyncInfos(b, date)) != {}
    || Requested(GetSyncInfos(b, date), GetSyncInfos(a, date)) != {}
  }

  lemma DifferentIsUnsettled(a: Db, b: Db, all: iset<Entry>, ar: Arity)
    requires Compatible(a, b, all, ar)
    ensures View(a) != View(b) <==> exists date: nat :: Unsettled(a, b, date)
  {
    hide View, ValidTables, CacheCovers, KnowsSigners, Understands, UniquelySigned, Within, Requested, GetSyncInfos;
    QuiescenceEverywhere(a, b, all, ar);
    if View(a) != View(b) {
      var date: nat :| !(Requested(GetSyncInfos(a, date), GetSyncInfos(b, date)) == {}
                         && Requested(GetSyncInfos(b, date), GetSyncInfos(a, date)) == {});
      assert Unsettled(a, b, date);
    }
  }

  /** Tied apart, no rounds on any dates and for any names bring the stores to agree: whatever
      they exchange, some date still causes requests. */
  lemma TiedNeverAgree(a: Db, b: Db, rounds: seq<Round>, all: iset<Entry>, ar: Arity)
    requires Compatible(a, b, all, ar) && TiedApart(View(a), View(b))
    ensures var (a', b') := RunEnd(a, b, rounds);
            View(a') != View(b') && exists date: nat :: Unsettled(a', b', date)
  {
    hide View, Compatible, RunEnd, Unsettled, Tied;
    RoundsKeepTies(a, b, rounds, all, ar);
    var (a', b') := RunEnd(a, b, rounds);
    DifferentIsUnsettled(a', b', all, ar);
  }

  /** Two stores can be brought to agree if and only if no key is tied apart; and then rounds
      on the highest differing dates do it. */
  lemma AgreementNeedsNoTies(a: Db, b: Db, all: iset<Entry>, ar: Arity)
    requires Compatible(a, b, all, ar)
    ensures (exists rounds :: var (a', b') := RunEnd(a, b, rounds); View(a') == View(b'))
            <==> !TiedApart(View(a), View(b))
    ensures (exists rounds :: IsRun(a, b, rounds) && var (a', b') := RunEnd(a, b, rounds); View(a') == View(b'))
            <==> !TiedApart(View(a), View(b))
  {
    hide View, Compatible, RunEnd, TiedApart, IsRun, Unsettled, LaterOf;
    if TiedApart(View(a), View(b)) {
      forall rounds ensures var (a', b') := RunEnd(a, b, rounds); View(a') != View(b') {
        TiedNeverAgree(a, b, rounds, all, ar);
      }
    } else {
      var rounds := SomeRunConverges(a, b, all, ar);
    }
  }
}
