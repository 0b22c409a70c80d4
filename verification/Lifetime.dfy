/** The whole life of a node: starts on its database, each with a cleanup, and between them
    what peers send and what is typed in. */
module Lifetime {
  import opened Entities
  import opened Options
  import opened RoundTrip
  import opened Tables
  import opened Store
  import opened StoreInvariants
  import opened Registers
  import opened Views
  import opened Merging
  import opened Refusals
  import opened Listing
  import opened Cleaning
  import opened Startup
  import opened StartupProofs
  import opened StorageClass
  import opened Node

  datatype Deed =
    | Started(generated: KeyPair, today: U32)
    | Handled(event: Event)
    | Input(statement: Statement, today: U32)

  const EMPTY := Db([], [], [], map[], map[])

  /** A start reads the tables anew; caches and summaries of the last run are gone. */
  function Begin(db: Db, generated: KeyPair, today: U32): Option<NodeState> {
    var (db', own) := Start(db, generated, today);
    if own.Done? then Some(NodeState(db', map[], own.value)) else None
  }

  function Do(l: NodeState, d: Deed): Option<NodeState> {
    match d
    case Started(generated, today) => Begin(l.db, generated, today)
    case Handled(e) =>
      (match Step(l, e)
       case None => None
       case Some((n, _)) => Some(n))
    case Input(s, today) => Typed(l, s, today)
  }

  /** The life after some deeds, up to a panic. */
  function Live(l: NodeState, deeds: seq<Deed>): Option<NodeState>
    decreases |deeds|
  {
    if deeds == [] then Some(l)
    else
      match Do(l, deeds[0])
      case None => None
      case Some(l') => Live(l', deeds[1..])
  }

  /** The tables are valid, every signer and template row is in its cache, signers are
      accepted, and the own key is the stored one. */
  ghost predicate Healthy(l: NodeState, ar: Arity) {
    && Valid(l.db, ar) && KnowsSigners(l.db)
    && l.db.privateKeys != [] && l.db.privateKeys[0].key == l.own.key
    && l.own.signer == Signer(l.own.key.public)
  }

  ghost predicate AcceptableDeed(d: Deed, ar: Arity) {
    match d
    case Started(generated, _) => Printable(Signer(generated.public))
    case Handled(e) => AcceptableEvent(e, ar)
    case Input(s, _) => Acceptable(s, ar)
  }

  lemma EmptyIsValid(ar: Arity)
    ensures ValidTables(EMPTY, ar)
  {
  }

  lemma CompleteKnowsSigners(db: Db, today: U32, ar: Arity)
    requires GoodArity(ar) && ValidTables(db, ar) && Complete(db, today)
    ensures KnowsSigners(db)
  {
    hide View, DataOf, TemplateOf, ContentsOf, Takes, Increasing, ValidOpinions, ValidPrivateKeys, Faithful;
    var s := TemplateStatement(SIGNER_TEMPLATE);
    var r :| r in db.statements && r.data.contents == ContentsOf(s);
    RootIsAcceptable(SIGNER_TEMPLATE, ar);
    ContentsDetermineRow(r.data, s, ar);
  }

  lemma BeginIsHealthy(db: Db, generated: KeyPair, today: U32, ar: Arity)
    requires GoodArity(ar) && ValidTables(db, ar) && Printable(Signer(generated.public))
    ensures var l := Begin(db, generated, today);
            && l.Some? && Healthy(l.value, ar)
            && l.value.ownInfos == map[]
            && l.value.own.key == (if db.privateKeys != [] then db.privateKeys[0].key else generated)
  {
    hide View, ValidTables, CacheCovers, Initialize, Cleanup, Complete, HasTemplate, KnowsSigners;
    var blank := db.(templates := map[], signers := map[]);
    CachesDropped(db, ar);
    InitializationCompletes(blank, generated, today, ar);
    var i := Initialize(blank, generated, today).0;
    CleanupKeeps(i, today, ar);
    CleanupKeepsComplete(i, today, ar);
    CompleteKnowsSigners(Cleanup(i, today), today, ar);
  }

  lemma HashedIsAcceptable(s: Statement, ar: Arity)
    requires Acceptable(s, ar)
    ensures Acceptable(HashStatementEmails(s), ar)
  {
    hide IsDomainText, IsEmailText, StartsLikeAs, Ipv6Text;
    var h := HashStatementEmails(s);
    forall e | e in h.entities ensures Printable(e) {
      var k :| 0 <= k < |h.entities| && h.entities[k] == e;
      assert s.entities[k] in s.entities;
    }
  }

  lemma TypedIsHealthy(l: NodeState, s: Statement, today: U32, ar: Arity)
    requires GoodArity(ar) && Healthy(l, ar) && Acceptable(s, ar)
    ensures var n := Typed(l, s, today);
            n.Some? && Healthy(n.value, ar) && n.value.own == l.own
  {
    hide View, ValidTables, CacheCovers, HasTemplate, KnowsSigners, StatementText, PersistStatement,
      PersistOpinion, Acceptable, Printable, DataOf, TemplateOf;
    HashedIsAcceptable(s, ar);
    var t := if HasTemplate(l.db.templates, s) then s else HashStatementEmails(s);
    var (db1, r) := PersistStatement(l.db, t);
    PersistFindsOrInserts(l.db, t, ar);
    if r.Done? {
      assert StatementsGrown(l.db, db1);
      KnowledgeStays(l.db, db1);
      SignersHaveTemplate(db1, l.own.key.public);
      StoredKeyReads(l.db, l.db.privateKeys[0], ar);
      var o := SignUsing(DefaultOpinion(today), StatementText(t), l.own.key);
      PersistOpinionPuts(db1, o, r.value.id, ar);
      KnowledgeStays(db1, PersistOpinion(db1, o, r.value.id).0);
    }
  }

  /** The deed is a response in which some statement finds no template in its turn. */
  ghost predicate BringsDown(l: NodeState, d: Deed) {
    d.Handled? && d.event.Response? && !Accepted(l.db, d.event.list)
  }

  lemma HandledIsHealthy(l: NodeState, e: Event, ar: Arity)
    requires GoodArity(ar) && Healthy(l, ar) && AcceptableEvent(e, ar)
    ensures Step(l, e).Some? ==> Healthy(Step(l, e).value.0, ar) && Step(l, e).value.0.own == l.own
    ensures Step(l, e).None? <==> e.Response? && !Accepted(l.db, e.list)
  {
    hide Valid, KnowsSigners, Step, AcceptableEvent, Accepted;
    StepKeepsStore(l, e, ar);
  }

  lemma DoIsHealthy(l: NodeState, d: Deed, ar: Arity)
    requires GoodArity(ar) && Healthy(l, ar) && AcceptableDeed(d, ar)
    ensures Do(l, d).Some? ==> Healthy(Do(l, d).value, ar) && Do(l, d).value.own == l.own
    ensures Do(l, d).None? <==> BringsDown(l, d)
  {
    hide Begin, Typed, Step, Acceptable, AcceptableEvent, Printable, ValidTables, CacheCovers, KnowsSigners, Accepted;
    match d
    case Started(generated, today) => BeginIsHealthy(l.db, generated, today, ar);
    case Handled(e) => HandledIsHealthy(l, e, ar);
    case Input(s, today) => TypedIsHealthy(l, s, today, ar);
  }

  /** Some deed brings down the node in the state the deeds before it led to. */
  ghost predicate Falls(l: NodeState, deeds: seq<Deed>) {
    exists k | 0 <= k < |deeds| :: Live(l, deeds[..k]).Some? && BringsDown(Live(l, deeds[..k]).value, deeds[k])
  }

  lemma {:induction false} LivesStayHealthy(l: NodeState, deeds: seq<Deed>, ar: Arity)
    requires GoodArity(ar) && Healthy(l, ar) && forall d | d in deeds :: AcceptableDeed(d, ar)
    ensures Live(l, deeds).Some? ==> Healthy(Live(l, deeds).value, ar) && Live(l, deeds).value.own == l.own
    ensures Live(l, deeds).None? <==> Falls(l, deeds)
    decreases |deeds|
  {
    hide Healthy, Do, AcceptableDeed, BringsDown;
    if deeds != [] {
      DoIsHealthy(l, deeds[0], ar);
      assert deeds[..0] == [];
      if Do(l, deeds[0]).Some? {
        LivesStayHealthy(Do(l, deeds[0]).value, deeds[1..], ar);
        FallsLater(l, deeds);
      }
    }
  }

  lemma FallsLater(l: NodeState, deeds: seq<Deed>)
    requires deeds != [] && Do(l, deeds[0]).Some? && !BringsDown(l, deeds[0])
    ensures Falls(l, deeds) <==> Falls(Do(l, deeds[0]).value, deeds[1..])
  {
    hide Do, BringsDown;
    var l', rest := Do(l, deeds[0]).value, deeds[1..];
    forall k | 0 < k < |deeds| ensures Live(l, deeds[..k]) == Live(l', rest[..k - 1]) && deeds[k] == rest[k - 1] {
      assert deeds[..k][0] == deeds[0] && deeds[..k][1..] == rest[..k - 1];
    }
    assert deeds[..0] == [];
    if Falls(l, deeds) {
      var k :| 0 <= k < |deeds| && Live(l, deeds[..k]).Some? && BringsDown(Live(l, deeds[..k]).value, deeds[k]);
      assert Live(l', rest[..k - 1]).Some? && BringsDown(Live(l', rest[..k - 1]).value, rest[k - 1]);
    }
    if Falls(l', rest) {
      var k :| 0 <= k < |rest| && Live(l', rest[..k]).Some? && BringsDown(Live(l', rest[..k]).value, rest[k]);
      assert Live(l, deeds[..k + 1]) == Live(l', rest[..k]);
    }
  }

  /** From an empty database on, through any starts with their cleanups and row ids used
      again, any messages and any input: the node falls if and only if a response comes in
      which some statement finds no template in its turn. As long as it has not fallen, every
      signer and template row is in its cache, so listing the opinions on a statement gives
      exactly those held on it, and the own key is the first one generated. */
  lemma EveryLifeIsHealthy(generated: KeyPair, today: U32, deeds: seq<Deed>, ar: Arity)
    requires GoodArity(ar) && Printable(Signer(generated.public)) && forall d | d in deeds :: AcceptableDeed(d, ar)
    ensures var first := Begin(EMPTY, generated, today);
            && first.Some? && first.value.own.key == generated
            && (Live(first.value, deeds).None? <==> Falls(first.value, deeds))
            && (Live(first.value, deeds).Some? ==>
                  var l := Live(first.value, deeds).value;
                  && Healthy(l, ar) && l.own == first.value.own
                  && forall id: nat ::
                       var os := OpinionRowsOn(l.db.opinions, id);
                       var list := OpinionsFromCache(l.db.signers, os);
                       && list.Some? && |list.value| == |os|
                       && (forall k | 0 <= k < |os| ::
                             Some(list.value[k].data) == OpinionOf(l.db.statements, os[k].data))
                       && (ById(l.db.statements, id).Some? ==>
                             ListsHeld(l.db, ById(l.db.statements, id).value.contents, list.value)))
  {
    hide Live, Begin, Falls, AcceptableDeed, OpinionsFromCache, OpinionOf, Valid, KnowsSigners, Printable, ListsHeld;
    EmptyIsValid(ar);
    BeginIsHealthy(EMPTY, generated, today, ar);
    var first := Begin(EMPTY, generated, today).value;
    LivesStayHealthy(first, deeds, ar);
    if Live(first, deeds).Some? {
      var db := Live(first, deeds).value.db;
      forall id: nat
        ensures var os := OpinionRowsOn(db.opinions, id);
                var list := OpinionsFromCache(db.signers, os);
                && list.Some? && |list.value| == |os|
                && (forall k | 0 <= k < |os| :: Some(list.value[k].data) == OpinionOf(db.statements, os[k].data))
                && (ById(db.statements, id).Some? ==> ListsHeld(db, ById(db.statements, id).value.contents, list.value))
      {
        CacheAgrees(db, OpinionRowsOn(db.opinions, id), ar);
        if ById(db.statements, id).Some? { ListedAreHeld(db, id, ar); }
      }
    }
  }
}
