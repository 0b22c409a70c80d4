/** How a connection begins: each node asks the other for its templates. What two new nodes
    hold afterwards, and when they can still come to agree. */
module Handshake {
  import opened Entities
  import opened Options
  import opened RoundTrip
  import opened Opinions
  import opened Tables
  import opened Store
  import opened StoreInvariants
  import opened Registers
  import opened Views
  import opened Merging
  import opened Startup
  import opened StartupProofs
  import opened TemplateReplies
  import opened SummaryMeaning
  import opened Protocol
  import opened Convergence
  import opened Node
  import opened Sessions
  import opened Lifetime
  import opened NewNodes

  /** What a node answers to a template request on some day. */
  function Answer(n: NodeState, day: U32): Option<seq<SignedStatement>> {
    match Step(n, TemplateRequest(day))
    case Some((_, Reply(list))) => Some(list)
    case _ => None
  }

  function Take(n: NodeState, list: seq<SignedStatement>): Option<NodeState> {
    match Step(n, Response(list))
    case Some((n', _)) => Some(n')
    case None => None
  }

  /** Established on both sides, where each node asks the other for its templates. */
  function Connect(a: NodeState, b: NodeState, dayA: U32, dayB: U32, crossed: bool): Option<(NodeState, NodeState)> {
    match (Step(a, Connected), Step(b, Connected))
    case (Some((a0, TemplatesRequested)), Some((b0, TemplatesRequested))) => AnswerBoth(a0, b0, dayA, dayB, crossed)
    case _ => None
  }

  /** Both nodes are asked and both take the answer. `b` answers first, on `dayB` by its clock;
      `a` answers on `dayA`, before it takes that answer or, if nothing crosses, after. */
  function AnswerBoth(a: NodeState, b: NodeState, dayA: U32, dayB: U32, crossed: bool): Option<(NodeState, NodeState)> {
    match Answer(b, dayB)
    case None => None
    case Some(fromB) =>
      match Take(a, fromB)
      case None => None
      case Some(a') =>
        match Answer(if crossed then a else a', dayA)
        case None => None
        case Some(fromA) =>
          match Take(b, fromA)
          case None => None
          case Some(b') => Some((a', b'))
  }

  /* ---- one answer ---- */

  /** Signing one template gives one entry, of that day, serial number 0 and seven days. */
  lemma SignedTemplateEntry(e: Entity, key: KeyPair, day: U32)
    ensures var s := Statement("template", [e]);
            var o := SignUsing(ReplyOpinion(day), StatementText(s), key);
            EntriesOf(SignedTemplate(e, key, day)) == [Entry(Key(ContentsOf(s), key.public), StoredOf(o.data, o.signature))]
  {
    hide ContentsOf, StatementText, SignableText;
    var s := Statement("template", [e]);
    var o := SignUsing(ReplyOpinion(day), StatementText(s), key);
    assert EntriesOfOpinions(ContentsOf(s), [o][1..]) == [];
  }

  lemma {:induction false} EntryFrom(list: seq<SignedStatement>, x: Entry) returns (s: SignedStatement)
    requires x in Entries(list)
    ensures s in list && x in EntriesOf(s)
  {
    hide EntriesOf;
    if x in EntriesOf(list[0]) {
      s := list[0];
    } else {
      s := EntryFrom(list[1..], x);
    }
  }

  /** The answer of a healthy node signs each of its templates, acceptably to any peer. */
  lemma AnswerIsAcceptable(n: NodeState, day: U32, ar: Arity)
    requires GoodArity(ar) && Healthy(n, ar)
    ensures Answer(n, day).Some?
    ensures forall s | s in Answer(n, day).value :: AcceptableSigned(s, ar)
    ensures forall s :: s in Answer(n, day).value <==> exists e | HoldsTemplate(n.db, e) :: s == SignedTemplate(e, n.own.key, day)
  {
    hide Answer, ValidTables, CacheCovers, KnowsSigners, AllTemplates, TemplateReply, Acceptable, AcceptableSigned,
      Printable, SignedTemplate, HoldsTemplate;
    TemplatesOf(n.db, ar);
    var es := AllTemplates(n.db.statements).value;
    AnswerIsReply(n, day);
    StoredKeyReads(n.db, n.db.privateKeys[0], ar);
    ReplyIsAcceptable(es, n.own.key, day, ar);
    ReplyMembers(es, n.own.key, day);
  }

  lemma AnswerIsReply(n: NodeState, day: U32)
    ensures var es := AllTemplates(n.db.statements);
            Answer(n, day) == if es.Some? then Some(TemplateReply(es.value, n.own.key, day)) else None
  {
    hide AllTemplates, TemplateReply;
  }

  lemma TemplatesOf(db: Db, ar: Arity)
    requires GoodArity(ar) && ValidTables(db, ar)
    ensures var l := AllTemplates(db.statements);
            && l.Some? && (forall e :: e in l.value <==> HoldsTemplate(db, e))
            && (forall e | e in l.value :: Acceptable(Statement("template", [e]), ar))
  {
    hide ValidOpinions, ValidPrivateKeys, CacheConforms, AllTemplates, Acceptable, IsTemplateRow, Faithful, ValidStatements;
    RowsAreFaithful(db.statements, ar);
    TemplatesAreListed(db.statements, ar);
  }

  lemma RowsAreFaithful(t: Table<StatementData>, ar: Arity)
    requires ValidStatements(t, ar)
    ensures forall r | r in t :: Faithful(r.data, ar)
  {
    hide Faithful, Increasing;
  }

  /** Taking a response writes its entries and leaves the node healthy. */
  lemma TakePuts(n: NodeState, list: seq<SignedStatement>, ar: Arity)
    requires GoodArity(ar) && Healthy(n, ar) && Coherent(n)
    requires forall s | s in list :: AcceptableSigned(s, ar) && TemplateStored(n.db, s.statement)
    ensures var r := Take(n, list);
            && r.Some? && Healthy(r.value, ar) && Sound(r.value, ar) && r.value.own == n.own
            && r.value.db == Merge(n.db, list).0 && StatementsGrown(n.db, r.value.db)
            && View(r.value.db) == PutAll(View(n.db), Entries(list))
  {
    hide View, Valid, KnowsSigners, AcceptableSigned, TemplateStored, Merge, Entries, StatementsGrown;
    MergePuts(n.db, list, ar);
    KnowledgeStays(n.db, Merge(n.db, list).0);
    GrownKeepsKeys(n.db, Merge(n.db, list).0);
  }

  lemma GrownKeepsKeys(db: Db, db': Db)
    requires StatementsGrown(db, db')
    ensures db'.privateKeys == db.privateKeys
  {
  }

  /* ---- answers that tie ---- */

  /** A node that answers on the day of its stored own opinion on a template ties with it,
      unless the asker already has something as new: the answer has the same date and serial
      number and another validity. */
  lemma SameDayAnswerTies(from: NodeState, to: NodeState, t: Template, day: U32, ar: Arity)
    requires GoodArity(ar) && Healthy(from, ar) && Healthy(to, ar) && Coherent(to)
    requires HoldsTemplate(from.db, TemplateEntity(t))
    requires forall e | HoldsTemplate(from.db, e) :: TemplateStored(to.db, Statement("template", [e]))
    requires var k := Key(ContentsOf(TemplateStatement(t)), from.own.key.public);
             && k in View(from.db) && View(from.db)[k].date == day && View(from.db)[k].serial == 0
             && View(from.db)[k].valid != 7
             && (k in View(to.db) ==> Older(View(to.db)[k], View(from.db)[k]))
    ensures Answer(from, day).Some? && Take(to, Answer(from, day).value).Some?
    ensures TiedApart(View(Take(to, Answer(from, day).value).value.db), View(from.db))
  {
    hide View, Healthy, Sound, Coherent, Answer, Take, HoldsTemplate, TemplateStored, AcceptableSigned, ContentsOf,
      StatementText, SignedTemplate, PutAll, StatementsGrown, Merge;
    var k := Key(ContentsOf(TemplateStatement(t)), from.own.key.public);
    AnswerIsAcceptable(from, day, ar);
    var list := Answer(from, day).value;
    forall s | s in list ensures TemplateStored(to.db, s.statement) {
      var e :| HoldsTemplate(from.db, e) && s == SignedTemplate(e, from.own.key, day);
      SignedTemplateIs(e, from.own.key, day);
    }
    TakePuts(to, list, ar);
    var es := Entries(list);
    var s := SignedTemplate(TemplateEntity(t), from.own.key, day);
    SignedTemplateEntry(TemplateEntity(t), from.own.key, day);
    var mine := EntriesOf(s)[0];
    EntryInEntries(list, s, mine);
    assert mine.key == k;
    forall x | x in es ensures x.stored.date == day && x.stored.serial == 0 && x.stored.valid == 7 {
      AnsweredEntry(from, list, x, day, ar);
    }
    PutAllIsNewest(View(to.db), es, k);
    var kept := PutAll(View(to.db), es)[k];
    assert !Older(kept, mine.stored);
    assert Entry(k, kept) in es;
  }

  lemma SignedTemplateIs(e: Entity, key: KeyPair, day: U32)
    ensures SignedTemplate(e, key, day).statement == Statement("template", [e])
  {
    hide StatementText;
  }

  lemma AnsweredEntry(from: NodeState, list: seq<SignedStatement>, x: Entry, day: U32, ar: Arity)
    requires forall s | s in list :: exists e :: s == SignedTemplate(e, from.own.key, day)
    requires x in Entries(list)
    ensures x.stored.date == day && x.stored.serial == 0 && x.stored.valid == 7
  {
    hide SignedTemplate, EntriesOf, Entries;
    var s := EntryFrom(list, x);
    var e :| s == SignedTemplate(e, from.own.key, day);
    SignedTemplateEntry(e, from.own.key, day);
  }

  /* ---- two new nodes ---- */

  /** A node that has only the root templates answers with both. */
  lemma RootAnswer(n: NodeState, day: U32, ar: Arity)
    requires GoodArity(ar) && Healthy(n, ar) && RootsOnly(n.db)
    ensures var r := Answer(n, day);
            && r.Some?
            && (forall s | s in r.value :: AcceptableSigned(s, ar) && IsTemplateStatement(s.statement)
                  && IsRootEntity(s.statement.entities[0]) && s.statement.name == "template")
            && (forall x :: x in Entries(r.value) <==>
                  x == RootEntry(ROOT_TEMPLATE, n.own.key, ReplyOpinion(day))
                  || x == RootEntry(SIGNER_TEMPLATE, n.own.key, ReplyOpinion(day)))
  {
    hide Healthy, Answer, HoldsTemplate, AcceptableSigned, ContentsOf, StatementText, SignedTemplate, SignUsing;
    AnswerIsAcceptable(n, day, ar);
    var list := Answer(n, day).value;
    forall s | s in list ensures IsTemplateStatement(s.statement) && IsRootEntity(s.statement.entities[0]) {
      var e :| HoldsTemplate(n.db, e) && s == SignedTemplate(e, n.own.key, day);
      SignedTemplateIs(e, n.own.key, day);
    }
    RootSigned(ROOT_TEMPLATE, n.own.key, day);
    RootSigned(SIGNER_TEMPLATE, n.own.key, day);
    var one := SignedTemplate(TemplateEntity(ROOT_TEMPLATE), n.own.key, day);
    var two := SignedTemplate(TemplateEntity(SIGNER_TEMPLATE), n.own.key, day);
    assert HoldsTemplate(n.db, TemplateEntity(ROOT_TEMPLATE)) && HoldsTemplate(n.db, TemplateEntity(SIGNER_TEMPLATE));
    forall x
      ensures x in Entries(list) <==>
                x == RootEntry(ROOT_TEMPLATE, n.own.key, ReplyOpinion(day))
                || x == RootEntry(SIGNER_TEMPLATE, n.own.key, ReplyOpinion(day))
    {
      if x in Entries(list) {
        var s := EntryFrom(list, x);
        var e :| HoldsTemplate(n.db, e) && s == SignedTemplate(e, n.own.key, day);
        assert e == TemplateEntity(ROOT_TEMPLATE) || e == TemplateEntity(SIGNER_TEMPLATE);
      }
      if x == RootEntry(ROOT_TEMPLATE, n.own.key, ReplyOpinion(day)) { EntryInEntries(list, one, x); }
      if x == RootEntry(SIGNER_TEMPLATE, n.own.key, ReplyOpinion(day)) { EntryInEntries(list, two, x); }
    }
  }

  lemma RootSigned(t: Template, key: KeyPair, day: U32)
    ensures EntriesOf(SignedTemplate(TemplateEntity(t), key, day)) == [RootEntry(t, key, ReplyOpinion(day))]
  {
    hide ContentsOf, StatementText, SignableText;
    SignedTemplateEntry(TemplateEntity(t), key, day);
  }

  /** Two entries under new keys are both written. */
  lemma TwoPut(v: Register, es: seq<Entry>, e: Entry, f: Entry)
    requires e.key != f.key && e.key !in v && f.key !in v
    requires forall x :: x in es <==> x == e || x == f
    ensures PutAll(v, es) == v + map[e.key := e.stored, f.key := f.stored]
  {
    hide PutAll;
    var end, w := PutAll(v, es), v + map[e.key := e.stored, f.key := f.stored];
    forall k ensures (k in end <==> k in w) && (k in end ==> end[k] == w[k]) {
      PutAllIsNewest(v, es, k);
      if k in v { assert Entry(k, v[k]).key == k; }
    }
  }

  /** Taking the root answer of another node adds its two opinions and no template. */
  lemma TakeRoots(n: NodeState, d: UnsignedOpinion, peer: KeyPair, day: U32, list: seq<SignedStatement>, ar: Arity)
    requires GoodArity(ar) && Healthy(n, ar) && Coherent(n) && RootsOnly(n.db)
    requires View(n.db) == RootView(n.own.key, d) && n.own.key.public != peer.public
    requires forall s | s in list :: AcceptableSigned(s, ar) && IsTemplateStatement(s.statement)
               && IsRootEntity(s.statement.entities[0]) && s.statement.name == "template"
    requires forall x :: x in Entries(list) <==>
               x == RootEntry(ROOT_TEMPLATE, peer, ReplyOpinion(day)) || x == RootEntry(SIGNER_TEMPLATE, peer, ReplyOpinion(day))
    ensures var r := Take(n, list);
            && r.Some? && Healthy(r.value, ar) && Sound(r.value, ar) && r.value.own == n.own && RootsOnly(r.value.db)
            && View(r.value.db) == RootView(n.own.key, d) + RootView(peer, ReplyOpinion(day))
  {
    hide View, Healthy, Sound, Coherent, Take, AcceptableSigned, ContentsOf, PutAll, Merge, StatementsGrown, Entries,
      RootEntry, RootsOnly, IsRootEntity;
    assert forall s | s in list :: TemplateStored(n.db, s.statement);
    hide TemplateStored;
    TakePuts(n, list, ar);
    var db' := Take(n, list).value.db;
    RootsStayOnly(n.db, list, db');
    var e, f := RootEntry(ROOT_TEMPLATE, peer, ReplyOpinion(day)), RootEntry(SIGNER_TEMPLATE, peer, ReplyOpinion(day));
    RootViewIs(n.own.key, d);
    RootViewIs(peer, ReplyOpinion(day));
    RootKeysDiffer(peer, ReplyOpinion(day));
    TwoPut(View(n.db), Entries(list), e, f);
  }

  lemma RootKeysDiffer(key: KeyPair, d: UnsignedOpinion)
    ensures RootEntry(ROOT_TEMPLATE, key, d).key != RootEntry(SIGNER_TEMPLATE, key, d).key
    ensures RootEntry(ROOT_TEMPLATE, key, d).key.signer == RootEntry(SIGNER_TEMPLATE, key, d).key.signer == key.public
  {
    hide ContentsOf;
    RootsDiffer();
  }

  lemma RootsStayOnly(db: Db, list: seq<SignedStatement>, db': Db)
    requires RootsOnly(db) && db' == Merge(db, list).0 && StatementsGrown(db, db')
    requires forall s | s in list :: IsTemplateStatement(s.statement) && IsRootEntity(s.statement.entities[0])
               && s.statement.name == "template"
    ensures RootsOnly(db')
  {
    hide ContentsOf, Merge, ById, ReadContents;
    MergeAdds(db, list);
    forall e ensures HoldsTemplate(db', e) <==> IsRootEntity(e) {
      assert HoldsTemplate(db, e) <==> IsRootEntity(e);
      if r :| r in db'.statements && IsTemplateRow(r, e) {
        assert Accounted(db, r, list);
        ReadName(r.data.contents);
        if r !in db.statements {
          var s :| s in list && s.statement.entities != [] && r.data.contents == ContentsOf(s.statement);
          var t := s.statement.entities[0].template;
          assert s.statement == TemplateStatement(t);
          RootReads(t);
        }
      }
    }
  }

  /** What two new nodes hold once their connection stands: each its own thirty-day opinions,
      and the seven-day ones with which the other answered. Crossed or not is all the same. */
  lemma ConnectedViews(g: KeyPair, today: U32, h: KeyPair, later: U32, dayA: U32, dayB: U32, crossed: bool, ar: Arity)
    requires GoodArity(ar) && Printable(Signer(g.public)) && Printable(Signer(h.public)) && g.public != h.public
    ensures Begin(EMPTY, g, today).Some? && Begin(EMPTY, h, later).Some?
    ensures var r := Connect(Begin(EMPTY, g, today).value, Begin(EMPTY, h, later).value, dayA, dayB, crossed);
            && r.Some? && Sound(r.value.0, ar) && Sound(r.value.1, ar)
            && Healthy(r.value.0, ar) && r.value.0.own.key == g && Healthy(r.value.1, ar) && r.value.1.own.key == h
            && View(r.value.0.db) == RootView(g, DefaultOpinion(today)) + RootView(h, ReplyOpinion(dayB))
            && View(r.value.1.db) == RootView(h, DefaultOpinion(later)) + RootView(g, ReplyOpinion(dayA))
  {
    hide View, Healthy, Sound, Answer, Take, AcceptableSigned, RootView, RootEntry, RootsOnly, Begin, Entries,
      Printable, IsRootEntity, DefaultOpinion, ReplyOpinion;
    NewNodeView(g, today, ar);
    NewNodeView(h, later, ar);
    var a, b := Begin(EMPTY, g, today).value, Begin(EMPTY, h, later).value;
    RootAnswer(b, dayB, ar);
    TakeRoots(a, DefaultOpinion(today), h, dayB, Answer(b, dayB).value, ar);
    var a' := Take(a, Answer(b, dayB).value).value;
    var answering := if crossed then a else a';
    RootAnswer(answering, dayA, ar);
    TakeRoots(b, DefaultOpinion(later), g, dayA, Answer(answering, dayA).value, ar);
  }

  /** Tied apart means: one of them answered on the day its stored own opinions carry. */
  lemma ConnectedTies(g: KeyPair, today: U32, h: KeyPair, later: U32, dayA: U32, dayB: U32)
    requires g.public != h.public
    ensures TiedApart(RootView(g, DefaultOpinion(today)) + RootView(h, ReplyOpinion(dayB)),
                      RootView(h, DefaultOpinion(later)) + RootView(g, ReplyOpinion(dayA)))
            <==> today == dayA || later == dayB
  {
    hide ContentsOf, StatementText, SignableText, RootView;
    var v := RootView(g, DefaultOpinion(today)) + RootView(h, ReplyOpinion(dayB));
    var w := RootView(h, DefaultOpinion(later)) + RootView(g, ReplyOpinion(dayA));
    RootViewIs(g, DefaultOpinion(today));
    RootViewIs(h, ReplyOpinion(dayB));
    RootViewIs(h, DefaultOpinion(later));
    RootViewIs(g, ReplyOpinion(dayA));
    var mine := RootEntry(ROOT_TEMPLATE, g, DefaultOpinion(today)).key;
    var theirs := RootEntry(ROOT_TEMPLATE, h, DefaultOpinion(later)).key;
    assert v[mine] == RootEntry(ROOT_TEMPLATE, g, DefaultOpinion(today)).stored;
    assert w[mine] == RootEntry(ROOT_TEMPLATE, g, ReplyOpinion(dayA)).stored;
    assert v[theirs] == RootEntry(ROOT_TEMPLATE, h, ReplyOpinion(dayB)).stored;
    assert w[theirs] == RootEntry(ROOT_TEMPLATE, h, DefaultOpinion(later)).stored;
    forall k | k in v && k in w
      ensures if k.signer == g.public then v[k].date == today && w[k].date == dayA else v[k].date == dayB && w[k].date == later
    {
    }
  }

  /** Two new nodes, once connected, can come to agree if and only if neither answered the
      template request on the day its stored own opinions carry. If one did, they are tied
      apart for good: whatever they exchange, some date goes on causing requests. */
  lemma ConnectedNodesAgree(
      g: KeyPair, today: U32, h: KeyPair, later: U32, dayA: U32, dayB: U32, crossed: bool, all: iset<Entry>, ar: Arity)
    requires GoodArity(ar) && Printable(Signer(g.public)) && Printable(Signer(h.public)) && g.public != h.public
    requires UniquelySigned(all)
    requires Includes(all, g, DefaultOpinion(today)) && Includes(all, h, DefaultOpinion(later))
    requires Includes(all, g, ReplyOpinion(dayA)) && Includes(all, h, ReplyOpinion(dayB))
    ensures Begin(EMPTY, g, today).Some? && Begin(EMPTY, h, later).Some?
    ensures Connect(Begin(EMPTY, g, today).value, Begin(EMPTY, h, later).value, dayA, dayB, crossed).Some?
    ensures var (a, b) := Connect(Begin(EMPTY, g, today).value, Begin(EMPTY, h, later).value, dayA, dayB, crossed).value;
            && Sound(a, ar) && Sound(b, ar) && Compatible(a.db, b.db, all, ar)
            && ((exists rounds :: AgreeAfter(a, b, rounds)) <==> today != dayA && later != dayB)
            && (today == dayA || later == dayB ==>
                  forall rounds ::
                    && SessionEnd(a, b, rounds).Some?
                    && var (a', b') := SessionEnd(a, b, rounds).value;
                       exists date: nat :: Unsettled(a'.db, b'.db, date))
  {
    hide View, Valid, KnowsSigners, Begin, Connect, RootView, RootEntry, ContentsOf, Printable, Understands, Within,
      UniquelySigned, TiedApart, AgreeAfter, SessionEnd, Unsettled, DefaultOpinion, ReplyOpinion, Coherent;
    ConnectedViews(g, today, h, later, dayA, dayB, crossed, ar);
    ConnectedTies(g, today, h, later, dayA, dayB);
    var (a, b) := Connect(Begin(EMPTY, g, today).value, Begin(EMPTY, h, later).value, dayA, dayB, crossed).value;
    RootViewIs(g, DefaultOpinion(today));
    RootViewIs(h, ReplyOpinion(dayB));
    RootViewIs(h, DefaultOpinion(later));
    RootViewIs(g, ReplyOpinion(dayA));
    BothWithin(all, g, DefaultOpinion(today), h, ReplyOpinion(dayB));
    BothWithin(all, h, DefaultOpinion(later), g, ReplyOpinion(dayA));
    RootsAreUnderstood(a.db, View(a.db).Keys + View(b.db).Keys);
    RootsAreUnderstood(b.db, View(a.db).Keys + View(b.db).Keys);
    NodesAgreeWithoutTies(a, b, all, ar);
  }

  lemma BothWithin(all: iset<Entry>, key: KeyPair, d: UnsignedOpinion, peer: KeyPair, p: UnsignedOpinion)
    requires Includes(all, key, d) && Includes(all, peer, p)
    ensures Within(RootView(key, d) + RootView(peer, p), all)
  {
    hide RootView, Includes;
    RootViewWithin(all, key, d);
    RootViewWithin(all, peer, p);
  }
}
