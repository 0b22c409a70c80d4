/** What a start does to ties: a node that starts on a later day signs the root templates
    anew, and what was tied there is tied no longer. */
module Restarts {
  import opened Entities
  import opened RoundTrip
  import opened Store
  import opened StoreInvariants
  import opened Registers
  import opened Views
  import opened Merging
  import opened Cleaning
  import opened Startup
  import opened StartupProofs
  import opened TemplateReplies
  import opened SummaryMeaning
  import opened Protocol
  import opened Convergence
  import opened Node
  import opened Sessions
  import opened Lifetime
  import opened NewNodes
  import opened Handshake

  /** The key of someone's opinion on a root template. */
  predicate OwnRoot(k: Key, key: KeyPair) {
    && k.signer == key.public
    && (k.statement == ContentsOf(TemplateStatement(ROOT_TEMPLATE)) || k.statement == ContentsOf(TemplateStatement(SIGNER_TEMPLATE)))
  }

  /** The day is later than the date of any opinion of theirs on a root template. */
  predicate LaterThanRoots(day: U32, key: KeyPair, v: Register) {
    forall k | k in v && OwnRoot(k, key) :: v[k].date < day
  }

  /** What a start signs, with what there was. */
  function WithOwnRoots(v: Register, key: KeyPair, day: U32): Register {
    Put(Put(v, OwnEntry(ROOT_TEMPLATE, key, day)), OwnEntry(SIGNER_TEMPLATE, key, day))
  }

  /** A start on a database that has a key. */
  lemma RestartView(l: NodeState, generated: KeyPair, today: U32, ar: Arity)
    requires GoodArity(ar) && Healthy(l, ar) && Printable(Signer(generated.public))
    ensures var r := Begin(l.db, generated, today);
            && r.Some? && Healthy(r.value, ar) && Sound(r.value, ar) && r.value.own.key == l.own.key
            && View(r.value.db) == Unexpired(WithOwnRoots(View(l.db), l.own.key, today), today)
  {
    hide View, ValidTables, CacheCovers, Initialize, Cleanup, Complete, HasTemplate, KnowsSigners, OwnEntry, Printable, Expired,
      Unexpired, Put;
    BeginIsHealthy(l.db, generated, today, ar);
    var blank := l.db.(templates := map[], signers := map[]);
    CachesDropped(l.db, ar);
    SameView(l.db, blank);
    InitializationCompletes(blank, generated, today, ar);
    CleanupKeeps(Initialize(blank, generated, today).0, today, ar);
  }

  lemma SameView(db: Db, blank: Db)
    requires blank == db.(templates := map[], signers := map[])
    ensures View(blank) == View(db)
  {
    hide MapOf;
  }

  lemma OwnEntriesAre(key: KeyPair, day: U32)
    ensures var (e, f) := (OwnEntry(ROOT_TEMPLATE, key, day), OwnEntry(SIGNER_TEMPLATE, key, day));
            && e.key != f.key && (forall k :: OwnRoot(k, key) <==> k == e.key || k == f.key)
            && e.stored.date == day && f.stored.date == day && !Expired(e.stored, day) && !Expired(f.stored, day)
  {
    hide ContentsOf, StatementText, SignableText;
    RootsDiffer();
  }

  /** On a later day both own root opinions are new; the others are what they were. */
  lemma RestartedRegister(v: Register, key: KeyPair, day: U32)
    requires LaterThanRoots(day, key, v)
    ensures var w := Unexpired(WithOwnRoots(v, key, day), day);
            && (forall k :: k in w <==> OwnRoot(k, key) || (k in v && !Expired(v[k], day)))
            && (forall k | k in w :: if OwnRoot(k, key) then w[k].date == day else k in v && w[k] == v[k])
  {
    hide OwnEntry, OwnRoot, Expired;
    OwnEntriesAre(key, day);
    var e, f := OwnEntry(ROOT_TEMPLATE, key, day), OwnEntry(SIGNER_TEMPLATE, key, day);
    var w := WithOwnRoots(v, key, day);
    assert w == v[e.key := e.stored][f.key := f.stored];
  }

  /** A tie that neither start touches, and that outlives both cleanups. */
  predicate TieRemains(v: Register, w: Register, k: Key, g: KeyPair, h: KeyPair, dayA: U32, dayB: U32) {
    && !OwnRoot(k, g) && !OwnRoot(k, h)
    && k in v && k in w && Tied(v[k], w[k]) && v[k] != w[k]
    && !Expired(v[k], dayA) && !Expired(w[k], dayB)
  }

  /** Once both nodes have started on days later than those of their root opinions, here and
      there, they are tied apart exactly by the unexpired ties under other keys. */
  lemma RestartsUntieRoots(
      a: NodeState, b: NodeState, p: KeyPair, q: KeyPair, dayA: U32, dayB: U32, ar: Arity)
    requires GoodArity(ar) && Healthy(a, ar) && Healthy(b, ar) && a.own.key.public != b.own.key.public
    requires Printable(Signer(p.public)) && Printable(Signer(q.public))
    requires LaterThanRoots(dayA, a.own.key, View(a.db)) && LaterThanRoots(dayA, a.own.key, View(b.db))
    requires LaterThanRoots(dayB, b.own.key, View(a.db)) && LaterThanRoots(dayB, b.own.key, View(b.db))
    ensures Begin(a.db, p, dayA).Some? && Begin(b.db, q, dayB).Some?
    ensures TiedApart(View(Begin(a.db, p, dayA).value.db), View(Begin(b.db, q, dayB).value.db)) <==>
            exists k :: TieRemains(View(a.db), View(b.db), k, a.own.key, b.own.key, dayA, dayB)
  {
    hide View, Healthy, Sound, Begin, Printable, OwnRoot, Unexpired, WithOwnRoots, Expired;
    RestartView(a, p, dayA, ar);
    RestartView(b, q, dayB, ar);
    RestartedRegister(View(a.db), a.own.key, dayA);
    RestartedRegister(View(b.db), b.own.key, dayB);
    var (v, w) := (View(Begin(a.db, p, dayA).value.db), View(Begin(b.db, q, dayB).value.db));
    forall k
      ensures k in v && k in w && Tied(v[k], w[k]) && v[k] != w[k] <==>
              TieRemains(View(a.db), View(b.db), k, a.own.key, b.own.key, dayA, dayB)
    {
      RootsAreOwn(k, a.own.key, b.own.key);
    }
  }

  lemma RootsAreOwn(k: Key, g: KeyPair, h: KeyPair)
    requires g.public != h.public
    ensures !(OwnRoot(k, g) && OwnRoot(k, h))
  {
  }

  /** Two new nodes that a connection has tied apart can come to agree again once both have
      started on later days. */
  lemma RestartedNodesAgree(
      g: KeyPair, today: U32, h: KeyPair, later: U32, dayA: U32, dayB: U32, crossed: bool,
      p: KeyPair, q: KeyPair, nextA: U32, nextB: U32, all: iset<Entry>, ar: Arity)
    requires GoodArity(ar) && Printable(Signer(g.public)) && Printable(Signer(h.public)) && g.public != h.public
    requires Printable(Signer(p.public)) && Printable(Signer(q.public)) && UniquelySigned(all)
    requires Includes(all, g, DefaultOpinion(today)) && Includes(all, h, DefaultOpinion(later))
    requires Includes(all, g, ReplyOpinion(dayA)) && Includes(all, h, ReplyOpinion(dayB))
    requires Includes(all, g, DefaultOpinion(nextA)) && Includes(all, h, DefaultOpinion(nextB))
    requires today < nextA && dayA < nextA && later < nextB && dayB < nextB
    ensures Begin(EMPTY, g, today).Some? && Begin(EMPTY, h, later).Some?
    ensures Connect(Begin(EMPTY, g, today).value, Begin(EMPTY, h, later).value, dayA, dayB, crossed).Some?
    ensures var (a, b) := Connect(Begin(EMPTY, g, today).value, Begin(EMPTY, h, later).value, dayA, dayB, crossed).value;
            && Begin(a.db, p, nextA).Some? && Begin(b.db, q, nextB).Some?
            && var (a', b') := (Begin(a.db, p, nextA).value, Begin(b.db, q, nextB).value);
               Compatible(a'.db, b'.db, all, ar) && exists rounds :: AgreeAfter(a', b', rounds)
  {
    hide View, Valid, KnowsSigners, Healthy, Coherent, Begin, Connect, RootView, RootEntry, ContentsOf, Printable, Understands,
      Within, UniquelySigned, Includes, TiedApart, AgreeAfter, SessionEnd, Unsettled, DefaultOpinion, ReplyOpinion, OwnRoot,
      LaterThanRoots, TieRemains, HoldsRoots, Unexpired, WithOwnRoots, Expired;
    ConnectedViews(g, today, h, later, dayA, dayB, crossed, ar);
    var (a, b) := Connect(Begin(EMPTY, g, today).value, Begin(EMPTY, h, later).value, dayA, dayB, crossed).value;
    RootsOfViews(g, today, h, dayB);
    RootsOfViews(h, later, g, dayA);
    LaterThanBoth(View(a.db), g, h, today, dayB, nextA, nextB);
    LaterThanBoth(View(b.db), h, g, later, dayA, nextB, nextA);
    RestartsUntieRoots(a, b, p, q, nextA, nextB, ar);
    RestartView(a, p, nextA, ar);
    RestartView(b, q, nextB, ar);
    var (a', b') := (Begin(a.db, p, nextA).value, Begin(b.db, q, nextB).value);
    assert !TiedApart(View(a'.db), View(b'.db)) by {
      if k :| TieRemains(View(a.db), View(b.db), k, g, h, nextA, nextB) { NoOtherTie(View(a.db), View(b.db), k, g, h, today, dayB, nextA, nextB); }
    }
    BothWithin(all, g, DefaultOpinion(today), h, ReplyOpinion(dayB));
    BothWithin(all, h, DefaultOpinion(later), g, ReplyOpinion(dayA));
    RestartWithin(View(a.db), g, nextA, all);
    RestartWithin(View(b.db), h, nextB, all);
    RestartedRegister(View(a.db), g, nextA);
    RestartedRegister(View(b.db), h, nextB);
    RootStatements(View(a.db), View(a'.db), g, h, today, dayB);
    RootStatements(View(b.db), View(b'.db), h, g, later, dayA);
    RootsAreUnderstood(a'.db, View(a'.db).Keys + View(b'.db).Keys);
    RootsAreUnderstood(b'.db, View(a'.db).Keys + View(b'.db).Keys);
    NodesAgreeWithoutTies(a', b', all, ar);
  }

  /** The view of a connected new node: own root opinions of one day, the other's of another. */
  ghost predicate HoldsRoots(v: Register, g: KeyPair, h: KeyPair, date: U32, on: U32) {
    forall k | k in v :: (OwnRoot(k, g) && v[k].date == date) || (OwnRoot(k, h) && v[k].date == on)
  }

  lemma RootsOfViews(g: KeyPair, date: U32, h: KeyPair, on: U32)
    ensures HoldsRoots(RootView(g, DefaultOpinion(date)) + RootView(h, ReplyOpinion(on)), g, h, date, on)
  {
    hide RootView, ContentsOf, StatementText;
    RootViewIs(g, DefaultOpinion(date));
    RootViewIs(h, ReplyOpinion(on));
  }

  lemma LaterThanBoth(v: Register, g: KeyPair, h: KeyPair, date: U32, on: U32, nextG: U32, nextH: U32)
    requires HoldsRoots(v, g, h, date, on) && g.public != h.public && date < nextG && on < nextH
    ensures LaterThanRoots(nextG, g, v) && LaterThanRoots(nextH, h, v)
  {
    hide ContentsOf;
  }

  lemma NoOtherTie(v: Register, w: Register, k: Key, g: KeyPair, h: KeyPair, date: U32, on: U32, nextG: U32, nextH: U32)
    requires HoldsRoots(v, g, h, date, on)
    ensures !TieRemains(v, w, k, g, h, nextG, nextH)
  {
    hide OwnRoot;
  }

  lemma RestartWithin(v: Register, key: KeyPair, day: U32, all: iset<Entry>)
    requires Within(v, all) && Includes(all, key, DefaultOpinion(day))
    ensures Within(Unexpired(WithOwnRoots(v, key, day), day), all)
  {
    hide ContentsOf, StatementText, SignableText, Expired, Put;
    PutWithin(v, OwnEntry(ROOT_TEMPLATE, key, day), all);
    PutWithin(Put(v, OwnEntry(ROOT_TEMPLATE, key, day)), OwnEntry(SIGNER_TEMPLATE, key, day), all);
  }

  lemma RootStatements(v: Register, w: Register, g: KeyPair, h: KeyPair, date: U32, on: U32)
    requires HoldsRoots(v, g, h, date, on) && forall k | k in w :: OwnRoot(k, g) || k in v
    ensures forall k | k in w ::
              k.statement == ContentsOf(TemplateStatement(ROOT_TEMPLATE)) || k.statement == ContentsOf(TemplateStatement(SIGNER_TEMPLATE))
  {
    hide ContentsOf;
  }
}
