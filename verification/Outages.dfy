/** How an announcement can bring a node down: whatever name it lacks it asks for, and a reply
    with a statement that has no template is one it does not survive. */
module Outages {
  import opened Entities
  import opened Options
  import opened RoundTrip
  import opened Opinions
  import opened Tables
  import opened Store
  import opened StoreInvariants
  import opened Registers
  import opened Views
  import opened Merging
  import opened Refusals
  import opened Listing
  import opened Startup
  import opened StartupProofs
  import opened Summaries
  import opened SummaryMeaning
  import opened Protocol
  import opened Node
  import opened Sessions
  import opened Lifetime
  import opened NewNodes
  import opened Lasting
  import opened TemplateReplies

  /* ---- one request ---- */

  /** A reply about any name but `template` is taken if and only if the receiver knows a
      template for every statement in it. */
  lemma PlainReplyFails(from: Db, to: Db, name: string, date: nat, ar: Arity)
    requires GoodArity(ar) && ValidTables(from, ar) && Valid(to, ar) && KnowsSigners(to) && name != "template"
    ensures ListNamed(from, name, date).Some?
    ensures Deliver(from, to, name, date).1.Done? <==>
              forall s | s in ListNamed(from, name, date).value :: HasTemplate(to.templates, s.statement)
  {
    hide View, ValidTables, CacheCovers, ListNamed, AcceptableSigned, HasTemplate, Merge, Entries, KnowsSigners;
    ReplyCarries(from, name, date, ar);
    PlainDelivery(to, ListNamed(from, name, date).value, ar);
  }

  /** A reply about `template` is taken if and only if each statement in it finds a template in
      its turn; those that are templates themselves need none. */
  lemma TemplateReplyFails(from: Db, to: Db, date: nat, ar: Arity)
    requires GoodArity(ar) && ValidTables(from, ar) && Valid(to, ar) && KnowsSigners(to)
    ensures ListNamed(from, "template", date).Some?
    ensures var list := ListNamed(from, "template", date).value;
            && (Deliver(from, to, "template", date).1.Done? <==> Accepted(to, list))
            && ((forall s | s in list :: IsTemplateStatement(s.statement)) ==> Accepted(to, list))
            && (CacheIsExact(to) ==> (Accepted(to, list) <==> forall k | 0 <= k < |list| :: Foreseen(to, list, k)))
  {
    hide View, ValidTables, CacheCovers, ListNamed, AcceptableSigned, Matches, Merge, Entries, KnowsSigners, CacheIsExact,
      Brings, Accepted;
    ReplyCarries(from, "template", date, ar);
    var list := ListNamed(from, "template", date).value;
    DoneIsAccepted(to, list, ar);
    if forall s | s in list :: IsTemplateStatement(s.statement) { DeliveryBounds(to, list, ar); }
    if CacheIsExact(to) { ExactDelivery(to, list, ar); }
  }

  /* ---- all requests of an announcement ---- */

  /** Everything the replies to these requests hold, in order. */
  function Replies(from: Db, names: seq<string>, date: nat): seq<SignedStatement> {
    if names == [] then []
    else
      (match ListNamed(from, names[0], date) case Some(list) => list case None => []) + Replies(from, names[1..], date)
  }

  lemma {:induction false} MergeSplit(db: Db, a: seq<SignedStatement>, b: seq<SignedStatement>)
    ensures Merge(db, a + b) == if Merge(db, a).1.Done? then Merge(Merge(db, a).0, b) else Merge(db, a)
    decreases |a|
  {
    hide PersistSigned;
    if a == [] {
      assert a + b == b;
    } else {
      MergeSplit(PersistSigned(db, a[0]).0, a[1..], b);
      assert (a + b)[1..] == a[1..] + b;
    }
  }

  lemma {:induction false} RepliesHold(from: Db, names: seq<string>, date: nat, ar: Arity)
    requires GoodArity(ar) && ValidTables(from, ar)
    ensures forall n :: ListNamed(from, n, date).Some?
    ensures forall s | s in Replies(from, names, date) :: AcceptableSigned(s, ar)
    ensures forall s :: s in Replies(from, names, date) <==> exists n | n in names :: s in ListNamed(from, n, date).value
    decreases |names|
  {
    hide View, ValidTables, ListNamed, AcceptableSigned, Entries, OnNameAndDate, IsReadable;
    forall n
      ensures ListNamed(from, n, date).Some? && forall s | s in ListNamed(from, n, date).value :: AcceptableSigned(s, ar)
    {
      ReplyCarries(from, n, date, ar);
    }
    if names != [] {
      RepliesHold(from, names[1..], date, ar);
      assert forall n :: n in names <==> n == names[0] || n in names[1..];
    }
  }

  lemma {:induction false} RepliesAreMerged(from: Db, to: Db, names: seq<string>, date: nat)
    requires forall n :: ListNamed(from, n, date).Some?
    ensures var (x, y) := (DeliverAll(from, to, names, date), Merge(to, Replies(from, names, date)));
            (x.1.Done? <==> y.1.Done?) && (x.1.Done? ==> x.0 == y.0)
    decreases |names|
  {
    hide ListNamed, Merge;
    if names == [] {
      NothingMerged(to);
    } else {
      var list := ListNamed(from, names[0], date).value;
      MergeSplit(to, list, Replies(from, names[1..], date));
      RepliesAreMerged(from, Merge(to, list).0, names[1..], date);
    }
  }

  lemma NothingMerged(db: Db)
    ensures Merge(db, []) == (db, Done(()))
  {
  }

  lemma ReplyIsMade(db: Db, name: string, date: nat, ar: Arity)
    requires GoodArity(ar) && Valid(db, ar)
    ensures ListNamed(db, name, date).Some?
  {
    hide View, ValidTables, ListNamed, AcceptableSigned, Entries;
    ValidHasTables(db, ar);
    ReplyCarries(db, name, date, ar);
  }

  /** Replies are taken one after the other as if they were one. */
  lemma {:induction false} ServedIsDelivered(from: NodeState, to: NodeState, names: seq<string>, date: nat, ar: Arity)
    requires GoodArity(ar) && Valid(from.db, ar)
    ensures var r := Served(from, to, names, date);
            && (r.Some? <==> DeliverAll(from.db, to.db, names, date).1.Done?)
            && (r.Some? ==> r.value.0 == from && r.value.1.db == DeliverAll(from.db, to.db, names, date).0)
    decreases |names|
  {
    hide Valid, ListNamed, Merge;
    if names != [] {
      ReplyIsMade(from.db, names[0], date, ar);
      var list := ListNamed(from.db, names[0], date).value;
      if Merge(to.db, list).1.Done? {
        ServedIsDelivered(from, Step(to, Response(list)).value.0, names[1..], date, ar);
      }
    }
  }

  /** After an announcement, catching up succeeds if and only if every statement in the
      replies, taken in the order of the requests, finds a template in its turn. */
  lemma CatchUpSucceeds(from: NodeState, to: NodeState, names: seq<string>, date: nat, ar: Arity)
    requires GoodArity(ar) && Sound(from, ar) && Sound(to, ar)
    ensures CatchUp(from, to, names, date).Some? <==> Accepted(to.db, Replies(from.db, names, date))
    ensures forall s | s in Replies(from.db, names, date) :: AcceptableSigned(s, ar)
  {
    hide View, ValidTables, CacheCovers, KnowsSigners, Coherent, Asked, Served, DeliverAll, Merge, AcceptableSigned, Accepted,
      Requested, GetSyncInfos, Replies;
    AskedIsRequested(from, to, date);
    var a := Asked(from, to, date).value;
    ServedIsDelivered(a.0, a.1, names, date, ar);
    RepliesHold(from.db, names, date, ar);
    RepliesAreMerged(from.db, to.db, names, date);
    DoneIsAccepted(to.db, Replies(from.db, names, date), ar);
  }

  /** If `template` is not among the names, it fails if and only if some reply holds a statement
      for which the asking node knows no template. */
  lemma PlainCatchUpFails(from: NodeState, to: NodeState, names: seq<string>, date: nat, ar: Arity)
    requires GoodArity(ar) && Sound(from, ar) && Sound(to, ar) && "template" !in names
    ensures forall n | n in names :: ListNamed(from.db, n, date).Some?
    ensures CatchUp(from, to, names, date).None? <==>
              exists n, s | n in names && s in ListNamed(from.db, n, date).value :: !HasTemplate(to.db.templates, s.statement)
  {
    hide View, ValidTables, CacheCovers, KnowsSigners, Coherent, CatchUp, DeliverAll, Merge, AcceptableSigned, Accepted,
      Replies, ListNamed, HasTemplate, Entries;
    forall n ensures ListNamed(from.db, n, date).Some? && forall s | s in ListNamed(from.db, n, date).value :: s.statement.name == n {
      ReplyCarries(from.db, n, date, ar);
    }
    var list := Replies(from.db, names, date);
    CatchUpSucceeds(from, to, names, date, ar);
    RepliesHold(from.db, names, date, ar);
    RepliesAreMerged(from.db, to.db, names, date);
    DoneIsAccepted(to.db, list, ar);
    PlainDelivery(to.db, list, ar);
  }

  /** While the template cache is exact, it fails if and only if some statement in the replies
      has neither a known template nor one brought by a reply before. */
  lemma ExactCatchUpFails(from: NodeState, to: NodeState, names: seq<string>, date: nat, ar: Arity)
    requires GoodArity(ar) && Sound(from, ar) && Sound(to, ar) && CacheIsExact(to.db)
    ensures var list := Replies(from.db, names, date);
            CatchUp(from, to, names, date).None? <==> exists k | 0 <= k < |list| :: !Foreseen(to.db, list, k)
  {
    hide View, ValidTables, CacheCovers, KnowsSigners, Coherent, CatchUp, DeliverAll, Merge, AcceptableSigned, Accepted,
      Replies, Foreseen, CacheIsExact;
    CatchUpSucceeds(from, to, names, date, ar);
    DoneIsAccepted(to.db, Replies(from.db, names, date), ar);
    ExactDelivery(to.db, Replies(from.db, names, date), ar);
  }

  /* ---- an announcement that brings a node down ---- */

  /** A node that hears of a name it has no opinions on, and knows no template of, asks for it
      all the same; and unless it also asks for templates, the reply brings it down. */
  lemma UnknownNameBringsDown(
      from: NodeState, to: NodeState, names: seq<string>, name: string, date: nat, all: iset<Entry>, ar: Arity)
    requires GoodArity(ar) && Sound(from, ar) && Sound(to, ar) && UniquelySigned(all)
    requires Within(View(from.db), all) && Within(View(to.db), all)
    requires Asks(from, to, names, date) && "template" !in names && name != "template"
    requires SignaturesOn(View(from.db), name, date) != {} && SignaturesOn(View(to.db), name, date) == {}
    requires forall id | id in to.db.templates :: to.db.templates[id].name != name
    ensures name in names && CatchUp(from, to, names, date).None?
  {
    hide View, ValidTables, CacheCovers, KnowsSigners, Coherent, CatchUp, UniquelySigned, Within, SignaturesOn, ListNamed,
      Requested, GetSyncInfos, Entries, AcceptableSigned, Asked;
    AskedIsRequested(from, to, date);
    SignedIsDistinct(View(from.db), all);
    SignedIsDistinct(View(to.db), all);
    RequestMeans(to.db, from.db, name, date, ar);
    PlainCatchUpFails(from, to, names, date, ar);
    ReplyIsNotEmpty(from.db, name, date, ar);
    var s := ListNamed(from.db, name, date).value[0];
    NoTemplateOfName(to.db, s.statement);
  }

  lemma NoTemplateOfName(db: Db, s: Statement)
    requires s.name != "template" && forall id | id in db.templates :: db.templates[id].name != s.name
    ensures !HasTemplate(db.templates, s)
  {
  }

  lemma ReplyIsNotEmpty(db: Db, name: string, date: nat, ar: Arity)
    requires GoodArity(ar) && ValidTables(db, ar) && SignaturesOn(View(db), name, date) != {}
    ensures ListNamed(db, name, date).Some? && ListNamed(db, name, date).value != []
    ensures ListNamed(db, name, date).value[0].statement.name == name
  {
    hide View, ValidTables, ListNamed, AcceptableSigned;
    ReplyCarries(db, name, date, ar);
    var x :| x in SignaturesOn(View(db), name, date);
    var k :| k in KeysOn(View(db), name, date) && View(db)[k].signature == x;
    assert OnNameAndDate(View(db), Entry(k, View(db)[k]), name, date);
  }

  /* ---- a node that falls, from empty databases on ---- */

  const SPAM_TEMPLATE := Template("spammer", [[DomainType]])
  const SPAM := Statement("spammer", [Domain("example")])

  /** A new node on which, another day, a template and a statement of it are typed. */
  function SpamNode(g: KeyPair, first: U32, day: U32): Option<NodeState> {
    match Begin(EMPTY, g, first)
    case None => None
    case Some(n0) =>
      match Typed(n0, TemplateStatement(SPAM_TEMPLATE), day)
      case None => None
      case Some(n1) => Typed(n1, SPAM, day)
  }

  lemma SpamIsPrintable()
    ensures Printable(Domain("example")) && Printable(TemplateEntity(SPAM_TEMPLATE))
  {
    hide IsDomainText, StartsLikeAs, IsName;
    LettersRead("example");
    NotLikeAs("example");
    SpammerIsName();
    assert SPAM_TEMPLATE.entityTypes[0] != [];
  }

  lemma SpammerIsName()
    ensures IsName("spammer")
  {
  }

  lemma SpamIsAcceptable(ar: Arity)
    requires GoodArity(ar) && ar("spammer") == 1
    ensures Acceptable(TemplateStatement(SPAM_TEMPLATE), ar) && IsReadable(TemplateStatement(SPAM_TEMPLATE))
    ensures Acceptable(SPAM, ar) && IsReadable(SPAM)
    ensures IsTemplateStatement(TemplateStatement(SPAM_TEMPLATE)) && Matches(SPAM, SPAM_TEMPLATE)
  {
    hide ReadContents, ContentsOf, Printable;
    SpamIsPrintable();
    RowReadsBack(SPAM);
    RowReadsBack(TemplateStatement(SPAM_TEMPLATE));
    assert TypeOf(SPAM.entities[0]) in SPAM_TEMPLATE.entityTypes[0];
  }

  /** What the two typed opinions are stored as. */
  function SpamEntry(s: Statement, key: KeyPair, day: U32): Entry
    requires s.entities != []
  {
    var o := SignUsing(DefaultOpinion(day), StatementText(s), key);
    Entry(Key(ContentsOf(s), o.signer), StoredOf(o.data, o.signature))
  }

  lemma SpamNodeHolds(g: KeyPair, first: U32, day: U32, ar: Arity)
    requires GoodArity(ar) && ar("spammer") == 1 && Printable(Signer(g.public))
    ensures var r := SpamNode(g, first, day);
            && r.Some? && Healthy(r.value, ar) && Sound(r.value, ar)
            && View(r.value.db) ==
               Put(Put(RootView(g, DefaultOpinion(first)), SpamEntry(TemplateStatement(SPAM_TEMPLATE), g, day)), SpamEntry(SPAM, g, day))
  {
    hide View, Healthy, RootView, HasTemplate, Typed, Begin, StatementText, ContentsOf, SignUsing, Printable, Acceptable,
      Put, IsStored, Matches, RootsOnly, IsReadable;
    SpamIsAcceptable(ar);
    NewNodeView(g, first, ar);
    var n0 := Begin(EMPTY, g, first).value;
    var t := TemplateStatement(SPAM_TEMPLATE);
    TemplatesNeedNone(n0.db.templates, t);
    TypedPuts(n0, t, day, ar);
    var n1 := Typed(n0, t, day).value;
    SpamIsKnown(n1, ar);
    TypedPuts(n1, SPAM, day, ar);
    HealthyIsSound(Typed(n1, SPAM, day).value, ar);
  }

  lemma TemplatesNeedNone(m: map<nat, Template>, s: Statement)
    requires IsTemplateStatement(s)
    ensures HasTemplate(m, s)
  {
  }

  lemma SpamIsKnown(n: NodeState, ar: Arity)
    requires GoodArity(ar) && ar("spammer") == 1 && Healthy(n, ar) && IsStored(n.db, TemplateStatement(SPAM_TEMPLATE))
    ensures HasTemplate(n.db.templates, SPAM)
  {
    hide ValidTables, KnowsSigners, IsStored, Matches, Acceptable, IsReadable;
    SpamIsAcceptable(ar);
    StoredFits(n.db, TemplateStatement(SPAM_TEMPLATE), SPAM, ar);
    StoredIsKnown(n.db, SPAM);
  }

  lemma HealthyIsSound(n: NodeState, ar: Arity)
    requires Healthy(n, ar) && n.ownInfos == map[]
    ensures Sound(n, ar)
  {
    hide Valid, KnowsSigners;
  }

  /** On that day the node holds the two typed opinions, and nothing else. */
  lemma SpamOfTheDay(g: KeyPair, first: U32, day: U32)
    requires first != day
    ensures var v := Put(Put(RootView(g, DefaultOpinion(first)), SpamEntry(TemplateStatement(SPAM_TEMPLATE), g, day)), SpamEntry(SPAM, g, day));
            var (e, f) := (SpamEntry(TemplateStatement(SPAM_TEMPLATE), g, day), SpamEntry(SPAM, g, day));
            && e.key in v && v[e.key] == e.stored && f.key in v && v[f.key] == f.stored
            && (forall k | k in v && v[k].date == day :: k == e.key || k == f.key)
            && (forall k | k in v :: Entry(k, v[k]) == e || Entry(k, v[k]) == f || (k in RootView(g, DefaultOpinion(first)) && v[k] == RootView(g, DefaultOpinion(first))[k]))
  {
    hide RootView, ContentsOf, StatementText, SignableText, RootEntry, Printable, Acceptable, IsReadable;
    RootViewIs(g, DefaultOpinion(first));
    SpamNames();
    SpamIsNew(ROOT_TEMPLATE);
    SpamIsNew(SIGNER_TEMPLATE);
  }

  lemma SpamIsNew(t: Template)
    requires IsRoot(t)
    ensures ContentsOf(TemplateStatement(SPAM_TEMPLATE)) != ContentsOf(TemplateStatement(t))
  {
    hide ContentsOf, Printable;
    SpamIsPrintable();
    assert SPAM_TEMPLATE != t;
    if ContentsOf(TemplateStatement(SPAM_TEMPLATE)) == ContentsOf(TemplateStatement(t)) {
      RootContents(TemplateStatement(SPAM_TEMPLATE), t);
    }
  }

  lemma SpamNames()
    ensures ContentsOf(SPAM).name == "spammer" && forall t :: ContentsOf(TemplateStatement(t)).name == "template"
  {
    hide EntityText;
  }

  /** If all opinions of a name and date are on one statement, the reply is about it alone. */
  lemma ReplyIsAbout(db: Db, name: string, date: nat, s: Statement, ar: Arity)
    requires GoodArity(ar) && ValidTables(db, ar) && IsReadable(s) && s.entities != []
    requires forall k | k in KeysOn(View(db), name, date) :: k.statement == ContentsOf(s)
    ensures ListNamed(db, name, date).Some?
    ensures forall x | x in ListNamed(db, name, date).value :: x.statement == s
  {
    hide View, ValidTables, ListNamed, AcceptableOpinion, Acceptable, ContentsOf, ReadContents;
    ReplyCarries(db, name, date, ar);
    var list := ListNamed(db, name, date).value;
    forall x | x in list ensures x.statement == s {
      EntriesAboutStatement(ContentsOf(x.statement), x.opinions);
      var e := EntriesOf(x)[0];
      EntryInEntries(list, x, e);
      assert e.key in KeysOn(View(db), name, date);
    }
  }

  /** A new node knows no template of that name. */
  lemma NewNodeKnowsNoSpam(n: NodeState, s: Statement)
    requires RootsOnly(n.db) && CacheIsExact(n.db) && s.name == "spammer"
    ensures !HasTemplate(n.db.templates, s)
  {
    hide CacheIsExact, ReadContents;
    if HasTemplate(n.db.templates, s) {
      KnownIsStored(n.db, s);
      var r :| r in n.db.statements && TemplateOf(r.data).Some? && Matches(s, TemplateOf(r.data).value);
      var t := TemplateOf(r.data).value;
      TemplateRowOf(r);
      TemplateIsRoot(n.db, TemplateEntity(t), r);
    }
  }

  lemma TemplateIsRoot(db: Db, e: Entity, r: Row<StatementData>)
    requires RootsOnly(db) && r in db.statements && IsTemplateRow(r, e)
    ensures IsRootEntity(e)
  {
    hide IsTemplateRow;
    assert HoldsTemplate(db, e);
  }

  /** The two typed opinions are in the view, and they are the only ones of that day. */
  ghost predicate HoldsSpam(v: Register, g: KeyPair, day: U32) {
    var (e, f) := (SpamEntry(TemplateStatement(SPAM_TEMPLATE), g, day), SpamEntry(SPAM, g, day));
    && e.key in v && v[e.key] == e.stored && f.key in v && v[f.key] == f.stored
    && (forall k | k in v && v[k].date == day :: k == e.key || k == f.key)
  }

  /** The two nodes, and what they hold on that day. */
  lemma SpamNodes(g: KeyPair, first: U32, day: U32, h: KeyPair, later: U32, all: iset<Entry>, ar: Arity)
    requires GoodArity(ar) && ar("spammer") == 1 && Printable(Signer(g.public)) && Printable(Signer(h.public))
    requires first != day && later != day
    requires Includes(all, g, DefaultOpinion(first)) && Includes(all, h, DefaultOpinion(later))
    requires SpamEntry(TemplateStatement(SPAM_TEMPLATE), g, day) in all && SpamEntry(SPAM, g, day) in all
    ensures SpamNode(g, first, day).Some? && Begin(EMPTY, h, later).Some?
    ensures var (from, to) := (SpamNode(g, first, day).value, Begin(EMPTY, h, later).value);
            && Sound(from, ar) && Sound(to, ar) && ValidTables(from.db, ar) && ValidTables(to.db, ar)
            && HoldsSpam(View(from.db), g, day) && Within(View(from.db), all)
            && (forall k | k in View(to.db) :: View(to.db)[k].date != day) && Within(View(to.db), all)
  {
    hide View, Valid, ValidTables, KnowsSigners, Healthy, Coherent, SpamNode, Begin, RootView, RootEntry, Put, SpamEntry, Printable,
      RootsOnly, ContentsOf, Includes, Within;
    SpamNodeHolds(g, first, day, ar);
    NewNodeView(h, later, ar);
    var from, to := SpamNode(g, first, day).value, Begin(EMPTY, h, later).value;
    HealthyIsSound(to, ar);
    ValidHasTables(from.db, ar);
    ValidHasTables(to.db, ar);
    SpamIsWithin(g, first, day, all);
    RootViewWithin(all, h, DefaultOpinion(later));
    SpamOfTheDay(g, first, day);
    RootDates(h, later, day);
  }

  lemma RootDates(h: KeyPair, later: U32, day: U32)
    requires later != day
    ensures forall k | k in RootView(h, DefaultOpinion(later)) :: RootView(h, DefaultOpinion(later))[k].date != day
  {
    hide RootView, ContentsOf, StatementText, SignableText;
    RootViewIs(h, DefaultOpinion(later));
  }

  /** What is asked for and what is answered on that day. */
  lemma SpamIsAsked(from: NodeState, to: NodeState, g: KeyPair, day: U32, all: iset<Entry>, ar: Arity)
    requires GoodArity(ar) && ar("spammer") == 1 && UniquelySigned(all)
    requires Sound(from, ar) && Sound(to, ar) && ValidTables(from.db, ar) && ValidTables(to.db, ar)
    requires HoldsSpam(View(from.db), g, day) && Within(View(from.db), all)
    requires (forall k | k in View(to.db) :: View(to.db)[k].date != day) && Within(View(to.db), all)
    ensures Asked(from, to, day).Some? && Asked(from, to, day).value.2 == {"template", "spammer"}
    ensures var (x, y) := (ListNamed(from.db, "template", day), ListNamed(from.db, "spammer", day));
            && x.Some? && x.value != [] && (forall s | s in x.value :: s.statement == TemplateStatement(SPAM_TEMPLATE))
            && y.Some? && y.value != [] && (forall s | s in y.value :: s.statement == SPAM)
  {
    hide View, Valid, ValidTables, KnowsSigners, Coherent, Asked, GetSyncInfos, HoldsSpam, Wants, SignaturesOn, KeysOn,
      Requested, ListNamed, UniquelySigned, IsReadable, Acceptable, Matches, ContentsOf, Within;
    SignedIsDistinct(View(from.db), all);
    SignedIsDistinct(View(to.db), all);
    AskedIsRequested(from, to, day);
    SpamIsAcceptable(ar);
    forall n: string ensures n in Requested(GetSyncInfos(to.db, day), GetSyncInfos(from.db, day)) <==> n == "template" || n == "spammer" {
      RequestMeans(to.db, from.db, n, day, ar);
      SpamSignatures(View(from.db), View(to.db), g, day, n);
    }
    SpamSignatures(View(from.db), View(to.db), g, day, "template");
    SpamSignatures(View(from.db), View(to.db), g, day, "spammer");
    ReplyIsAbout(from.db, "template", day, TemplateStatement(SPAM_TEMPLATE), ar);
    ReplyIsAbout(from.db, "spammer", day, SPAM, ar);
    ReplyIsNotEmpty(from.db, "template", day, ar);
    ReplyIsNotEmpty(from.db, "spammer", day, ar);
  }

  lemma SpamKeys(g: KeyPair, day: U32)
    ensures SpamEntry(TemplateStatement(SPAM_TEMPLATE), g, day).key.statement == ContentsOf(TemplateStatement(SPAM_TEMPLATE))
    ensures SpamEntry(SPAM, g, day).key.statement == ContentsOf(SPAM)
    ensures SpamEntry(TemplateStatement(SPAM_TEMPLATE), g, day).key.statement.name == "template"
    ensures SpamEntry(SPAM, g, day).key.statement.name == "spammer"
    ensures SpamEntry(TemplateStatement(SPAM_TEMPLATE), g, day).stored.date == day && SpamEntry(SPAM, g, day).stored.date == day
  {
    SpamNames();
    hide ContentsOf, StatementText, SignableText;
  }

  lemma SpamSignatures(v: Register, w: Register, g: KeyPair, day: U32, n: string)
    requires HoldsSpam(v, g, day) && forall k | k in w :: w[k].date != day
    ensures SignaturesOn(w, n, day) == {}
    ensures SignaturesOn(v, n, day) != {} <==> n == "template" || n == "spammer"
    ensures Wants(w, v, n, day) <==> n == "template" || n == "spammer"
    ensures forall k | k in KeysOn(v, "template", day) :: k.statement == ContentsOf(TemplateStatement(SPAM_TEMPLATE))
    ensures forall k | k in KeysOn(v, "spammer", day) :: k.statement == ContentsOf(SPAM)
  {
    hide SpamEntry, ContentsOf;
    SpamKeys(g, day);
    var (e, f) := (SpamEntry(TemplateStatement(SPAM_TEMPLATE), g, day), SpamEntry(SPAM, g, day));
    if n == "template" { assert e.key in KeysOn(v, n, day); }
    if n == "spammer" { assert f.key in KeysOn(v, n, day); }
    if n == "template" || n == "spammer" { assert (if n == "template" then e else f).stored.signature in SignaturesOn(v, n, day); }
    assert SignaturesOn(v, n, day) != {} ==> KeysOn(v, n, day) != {};
    NonEmptySize(SignaturesOn(v, n, day));
  }

  lemma NonEmptySize<T>(s: set<T>)
    ensures s == {} <==> |s| == 0
  {
  }

  lemma SpamIsWithin(g: KeyPair, first: U32, day: U32, all: iset<Entry>)
    requires Includes(all, g, DefaultOpinion(first))
    requires SpamEntry(TemplateStatement(SPAM_TEMPLATE), g, day) in all && SpamEntry(SPAM, g, day) in all
    ensures Within(Put(Put(RootView(g, DefaultOpinion(first)), SpamEntry(TemplateStatement(SPAM_TEMPLATE), g, day)), SpamEntry(SPAM, g, day)), all)
  {
    hide RootView, SpamEntry, Includes;
    RootViewWithin(all, g, DefaultOpinion(first));
    var e, f := SpamEntry(TemplateStatement(SPAM_TEMPLATE), g, day), SpamEntry(SPAM, g, day);
    PutWithin(RootView(g, DefaultOpinion(first)), e, all);
    PutWithin(Put(RootView(g, DefaultOpinion(first)), e), f, all);
  }

  /** One announcement, two requests, and their order decides. A new node that asks another
      for `spammer` and `template` goes on if the templates come first, and falls if they
      come last. */
  lemma OrderOfRequestsDecides(g: KeyPair, first: U32, day: U32, h: KeyPair, later: U32, all: iset<Entry>, ar: Arity)
    requires GoodArity(ar) && ar("spammer") == 1 && Printable(Signer(g.public)) && Printable(Signer(h.public))
    requires first != day && later != day && UniquelySigned(all)
    requires Includes(all, g, DefaultOpinion(first)) && Includes(all, h, DefaultOpinion(later))
    requires SpamEntry(TemplateStatement(SPAM_TEMPLATE), g, day) in all && SpamEntry(SPAM, g, day) in all
    ensures SpamNode(g, first, day).Some? && Begin(EMPTY, h, later).Some?
    ensures var (from, to) := (SpamNode(g, first, day).value, Begin(EMPTY, h, later).value);
            && Sound(from, ar) && Sound(to, ar)
            && Asks(from, to, ["template", "spammer"], day) && Asks(from, to, ["spammer", "template"], day)
            && CatchUp(from, to, ["template", "spammer"], day).Some?
            && CatchUp(from, to, ["spammer", "template"], day).None?
  {
    hide View, Sound, SpamNode, Begin, RootView, Put, SpamEntry, Asked, CatchUp, ListNamed, UniquelySigned, Printable, IsReadable,
      Acceptable, Matches, HasTemplate, RootsOnly, ContentsOf, Includes, Within, CacheIsExact, Replies, Foreseen, Healthy, HoldsSpam, ValidTables;
    SpamNodes(g, first, day, h, later, all, ar);
    NewNodeView(h, later, ar);
    NewNodeIsExact(h, later, ar);
    SpamIsAcceptable(ar);
    var from, to := SpamNode(g, first, day).value, Begin(EMPTY, h, later).value;
    SpamIsAsked(from, to, g, day, all, ar);
    ExactCatchUpFails(from, to, ["template", "spammer"], day, ar);
    ExactCatchUpFails(from, to, ["spammer", "template"], day, ar);
    var x, y := ListNamed(from.db, "template", day).value, ListNamed(from.db, "spammer", day).value;
    TwoReplies(from.db, "template", "spammer", day);
    TwoReplies(from.db, "spammer", "template", day);
    TemplatesFirst(to.db, x, y);
    NewNodeKnowsNoSpam(to, SPAM);
    SpamFirst(to.db, y, x);
  }

  lemma TwoReplies(db: Db, m: string, n: string, date: nat)
    requires ListNamed(db, m, date).Some? && ListNamed(db, n, date).Some?
    ensures Replies(db, [m, n], date) == ListNamed(db, m, date).value + ListNamed(db, n, date).value
  {
    hide ListNamed;
    assert [m, n][1..] == [n] && [n][1..] == [];
    assert Replies(db, [n], date) == ListNamed(db, n, date).value + Replies(db, [], date);
    assert Replies(db, [m, n], date) == ListNamed(db, m, date).value + Replies(db, [n], date);
  }

  lemma TemplatesFirst(db: Db, x: seq<SignedStatement>, y: seq<SignedStatement>)
    requires x != [] && (forall s | s in x :: s.statement == TemplateStatement(SPAM_TEMPLATE)) && (forall s | s in y :: s.statement == SPAM)
    requires Matches(SPAM, SPAM_TEMPLATE)
    ensures forall k | 0 <= k < |x + y| :: Foreseen(db, x + y, k)
  {
    hide Matches;
    forall k | 0 <= k < |x + y| ensures Foreseen(db, x + y, k) {
      if k < |x| {
        assert (x + y)[k] in x;
      } else {
        assert (x + y)[k] in y && x[0] in x;
        assert (x + y)[..k][0] == x[0] && x[0] in (x + y)[..k];
      }
    }
  }

  lemma SpamFirst(db: Db, y: seq<SignedStatement>, x: seq<SignedStatement>)
    requires y != [] && (forall s | s in y :: s.statement == SPAM) && !HasTemplate(db.templates, SPAM)
    ensures !Foreseen(db, y + x, 0)
  {
    hide HasTemplate;
    assert (y + x)[0] in y;
    assert (y + x)[..0] == [];
  }
}
