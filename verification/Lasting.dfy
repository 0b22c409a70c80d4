/** How long opinions are held: what comes in never makes a store forget or go back, and a
    start drops exactly what is past its days. */
module Lasting {
  import opened Entities
  import opened RoundTrip
  import opened Opinions
  import opened Store
  import opened StoreInvariants
  import opened Registers
  import opened Views
  import opened Merging
  import opened Refusals
  import opened Startup
  import opened StartupProofs
  import opened StorageClass
  import opened Node
  import opened Lifetime
  import opened NewNodes
  import opened Restarts
  import opened Network
  import opened Handshake
  import opened Connections

  lemma TypedIsNoOlder(l: NodeState, s: Statement, today: U32, ar: Arity)
    requires GoodArity(ar) && Healthy(l, ar) && Acceptable(s, ar)
    ensures Typed(l, s, today).Some? && NoOlder(View(l.db), View(Typed(l, s, today).value.db))
  {
    hide View, ValidTables, CacheCovers, HasTemplate, KnowsSigners, StatementText, PersistStatement,
      PersistOpinion, Acceptable, Printable, DataOf, TemplateOf, NoOlder, Put, Takes;
    TypedIsHealthy(l, s, today, ar);
    HashedIsAcceptable(s, ar);
    var t := if HasTemplate(l.db.templates, s) then s else HashStatementEmails(s);
    var (db1, r) := PersistStatement(l.db, t);
    PersistFindsOrInserts(l.db, t, ar);
    SelfIsNoOlder(View(l.db));
    if r.Done? {
      GrownView(l.db, db1, ar);
      KnowledgeStays(l.db, db1);
      SignersHaveTemplate(db1, l.own.key.public);
      StoredKeyReads(l.db, l.db.privateKeys[0], ar);
      var o := SignUsing(DefaultOpinion(today), StatementText(t), l.own.key);
      PersistOpinionPuts(db1, o, r.value.id, ar);
      PutIsNoOlder(View(db1), EntryOf(db1.statements, o, r.value.id));
    }
  }

  lemma PutIsNoOlder(v: Register, e: Entry)
    ensures NoOlder(v, Put(v, e))
  {
  }

  lemma HandledIsNoOlder(l: NodeState, e: Node.Event, ar: Arity)
    requires GoodArity(ar) && Healthy(l, ar) && AcceptableEvent(e, ar)
    ensures Step(l, e).Some? ==> NoOlder(View(l.db), View(Step(l, e).value.0.db))
  {
    hide View, Valid, KnowsSigners, NoOlder, PersistSigned, Merge, HasTemplate, AcceptableSigned, PutAll, Entries, EntriesOf,
      StatementsGrown;
    SelfIsNoOlder(View(l.db));
    match e
    case Broadcast(s) =>
      SignedPuts(l.db, s, ar);
      PutAllIsNoOlder(View(l.db), EntriesOf(s));
    case Response(list) =>
      MergePuts(l.db, list, ar);
      PutAllIsNoOlder(View(l.db), Entries(list));
    case _ =>
  }

  /** A start keeps or renews what is within its days, and drops the rest. */
  lemma StartedKeeps(l: NodeState, generated: KeyPair, today: U32, k: Key, ar: Arity)
    requires GoodArity(ar) && Healthy(l, ar) && Printable(Signer(generated.public)) && k in View(l.db)
    ensures Begin(l.db, generated, today).Some?
    ensures var (s, v) := (View(l.db)[k], View(Begin(l.db, generated, today).value.db));
            && (today <= s.date + s.valid ==> k in v && (v[k] == s || Older(s, v[k])))
            && (today > s.date + s.valid ==> k in v ==> v[k] != s)
  {
    hide View, Healthy, Sound, Begin, Printable, OwnEntry;
    RestartView(l, generated, today, ar);
    OwnIsOfToday(l.own.key, today);
  }

  lemma OwnIsOfToday(key: KeyPair, today: U32)
    ensures OwnEntry(ROOT_TEMPLATE, key, today).stored.date == today && OwnEntry(SIGNER_TEMPLATE, key, today).stored.date == today
  {
    hide ContentsOf, StatementText;
  }

  /** What one deed does under a key: nothing, unless it is a start past the days, or something
      newer comes. */
  lemma DeedKeeps(l: NodeState, d: Deed, k: Key, ar: Arity)
    requires GoodArity(ar) && Healthy(l, ar) && AcceptableDeed(d, ar) && k in View(l.db) && Do(l, d).Some?
    ensures Healthy(Do(l, d).value, ar)
    ensures var (s, v) := (View(l.db)[k], View(Do(l, d).value.db));
            && (!(d.Started? && d.today > s.date + s.valid) ==> k in v && (v[k] == s || Older(s, v[k])))
            && (d.Started? && d.today > s.date + s.valid && k in v ==> v[k] != s)
  {
    hide View, Healthy, Begin, Step, Typed, Printable, AcceptableEvent, Acceptable;
    DoIsHealthy(l, d, ar);
    match d
    case Started(generated, today) => StartedKeeps(l, generated, today, k, ar);
    case Handled(e) => HandledIsNoOlder(l, e, ar);
    case Input(s, today) => TypedIsNoOlder(l, s, today, ar);
  }

  /** No deed writes under the key: after each there is what there was, or nothing. */
  ghost predicate Unwritten(l: NodeState, deeds: seq<Deed>, k: Key)
    decreases |deeds|
  {
    deeds != [] && Do(l, deeds[0]).Some? ==>
      var next := Do(l, deeds[0]).value;
      && (k in View(next.db) ==> k in View(l.db) && View(next.db)[k] == View(l.db)[k])
      && Unwritten(next, deeds[1..], k)
  }

  /** An opinion that nothing is written over or in the place of is held after any life if and
      only if every start of it was on a day no later than its date and the days it is valid. */
  lemma {:induction false} OpinionsLast(l: NodeState, deeds: seq<Deed>, k: Key, ar: Arity)
    requires GoodArity(ar) && Healthy(l, ar) && (forall d | d in deeds :: AcceptableDeed(d, ar))
    requires Live(l, deeds).Some? && k in View(l.db) && Unwritten(l, deeds, k)
    ensures var (s, v) := (View(l.db)[k], View(Live(l, deeds).value.db));
            && (k in v <==> forall d | d in deeds && d.Started? :: d.today <= s.date + s.valid)
            && (k in v ==> v[k] == s)
    decreases |deeds|
  {
    hide View, Healthy, Do, AcceptableDeed;
    if deeds != [] {
      var d := deeds[0];
      DeedKeeps(l, d, k, ar);
      var next := Do(l, d).value;
      assert forall x :: x in deeds <==> x == d || x in deeds[1..];
      if k in View(next.db) {
        OpinionsLast(next, deeds[1..], k, ar);
      } else {
        StaysAbsent(next, deeds[1..], k);
      }
    }
  }

  lemma {:induction false} StaysAbsent(l: NodeState, deeds: seq<Deed>, k: Key)
    requires Live(l, deeds).Some? && k !in View(l.db) && Unwritten(l, deeds, k)
    ensures k !in View(Live(l, deeds).value.db)
    decreases |deeds|
  {
    hide View, Do;
    if deeds != [] { StaysAbsent(Do(l, deeds[0]).value, deeds[1..], k); }
  }

  /* ---- thirty days and seven ---- */

  /** Typing a statement that has a template stores it and writes its opinion. */
  lemma TypedPuts(n: NodeState, s: Statement, today: U32, ar: Arity)
    requires GoodArity(ar) && Healthy(n, ar) && Acceptable(s, ar) && s.entities != [] && HasTemplate(n.db.templates, s)
    ensures var r := Typed(n, s, today);
            && r.Some? && Healthy(r.value, ar) && r.value.own == n.own && r.value.ownInfos == n.ownInfos
            && View(r.value.db) == Put(View(n.db), TypedEntry(n, s, today))
            && IsStored(r.value.db, s)
  {
    hide View, ValidTables, CacheCovers, HasTemplate, KnowsSigners, StatementText, PersistStatement, PersistOpinion,
      Acceptable, Printable, DataOf, TemplateOf, ContentsOf, SignUsing, Put, IsStored, StatementsGrown;
    TypedIsHealthy(n, s, today, ar);
    PersistFindsOrInserts(n.db, s, ar);
    var (db1, r) := PersistStatement(n.db, s);
    GrownIsGrown(n.db, db1);
    GrownView(n.db, db1, ar);
    KnowledgeStays(n.db, db1);
    SignersHaveTemplate(db1, n.own.key.public);
    StoredKeyReads(n.db, n.db.privateKeys[0], ar);
    ContentsOfData(s);
    var o := SignUsing(DefaultOpinion(today), StatementText(s), n.own.key);
    SignerOfSigned(DefaultOpinion(today), StatementText(s), n.own.key);
    PersistOpinionPuts(db1, o, r.value.id, ar);
    PersistStores(db1, r.value.id, s);
    StoredSurvives(db1, PersistOpinion(db1, o, r.value.id).0, s);
  }

  lemma SignerOfSigned(d: UnsignedOpinion, text: string, key: KeyPair)
    ensures SignUsing(d, text, key).signer == key.public && SignUsing(d, text, key).data == d
  {
  }

  /** What is typed in and taken is held, while nothing is written over it, if and only if every
      start was no later than the thirtieth day after. */
  lemma TypedLasts(l: NodeState, s: Statement, today: U32, deeds: seq<Deed>, ar: Arity)
    requires GoodArity(ar) && Healthy(l, ar) && Acceptable(s, ar) && s.entities != [] && HasTemplate(l.db.templates, s)
    requires Takes(View(l.db), TypedEntry(l, s, today))
    requires forall d | d in deeds :: AcceptableDeed(d, ar)
    ensures Typed(l, s, today).Some?
    ensures var (n, k) := (Typed(l, s, today).value, Key(ContentsOf(s), l.own.key.public));
            Live(n, deeds).Some? && Unwritten(n, deeds, k) ==>
              (k in View(Live(n, deeds).value.db) <==> forall d | d in deeds && d.Started? :: d.today <= today + 30)
  {
    hide View, Healthy, Acceptable, HasTemplate, Typed, Live, Unwritten, AcceptableDeed, StatementText, ContentsOf;
    TypedPuts(l, s, today, ar);
    var n, e := Typed(l, s, today).value, TypedEntry(l, s, today);
    TypedEntryIs(l, s, today);
    if Live(n, deeds).Some? && Unwritten(n, deeds, e.key) {
      OpinionsLast(n, deeds, e.key, ar);
    }
  }

  /** The opinion typing gives: of the day, for thirty days, the first of the day, certainty 3. */
  lemma TypedEntryIs(l: NodeState, s: Statement, today: U32)
    requires s.entities != [] && HasTemplate(l.db.templates, s)
    ensures var e := TypedEntry(l, s, today);
            && e.key == Key(ContentsOf(s), l.own.key.public)
            && e.stored.date == today && e.stored.valid == 30 && e.stored.serial == 0 && e.stored.certainty == 3
  {
    hide ContentsOf, StatementText, HasTemplate;
  }

  /** What is taken from the answer to a template request is held, while nothing is written over
      it, if and only if every start was no later than the seventh day after. */
  lemma AnswersLast(from: NodeState, to: NodeState, e: Entity, day: U32, deeds: seq<Deed>, ar: Arity)
    requires GoodArity(ar) && Healthy(from, ar) && Healthy(to, ar) && Coherent(to) && TakesTemplates(to.db, from.db)
    requires HoldsTemplate(from.db, e) && Takes(View(to.db), AnswerEntry(from, e, day))
    requires forall d | d in deeds :: AcceptableDeed(d, ar)
    ensures Answer(from, day).Some? && Take(to, Answer(from, day).value).Some?
    ensures var (n, k) := (Take(to, Answer(from, day).value).value, AnswerEntry(from, e, day).key);
            Live(n, deeds).Some? && Unwritten(n, deeds, k) ==>
              (k in View(Live(n, deeds).value.db) <==> forall d | d in deeds && d.Started? :: d.today <= day + 7)
  {
    hide View, Healthy, Coherent, Sound, Answer, Take, Entries, HoldsTemplate, TakesTemplates, TemplateStored, Live, Unwritten,
      AcceptableDeed, AnswerEntry, PutAll;
    AnswerIsTaken(from, to, day, ar);
    AnswerEntries(from, day, ar);
    var x := AnswerEntry(from, e, day);
    AnswerKeyIs(from, e, day);
    PutAllOnce(View(to.db), Entries(Answer(from, day).value), x);
    var n := Take(to, Answer(from, day).value).value;
    if Live(n, deeds).Some? && Unwritten(n, deeds, x.key) {
      OpinionsLast(n, deeds, x.key, ar);
    }
  }
}
