/** Any number of nodes, whose messages may cross, come late, come again or never come. What
    every history of such a net keeps, and what brings all its nodes to agree. */
module Network {
  import opened Options
  import opened RoundTrip
  import opened Opinions
  import opened Store
  import opened StoreInvariants
  import opened Registers
  import opened Views
  import opened Merging
  import opened Listing
  import opened Summaries
  import opened SummaryMeaning
  import opened Protocol
  import opened TemplateReplies
  import opened Convergence
  import opened Node

  /* ---- what a register lacks ---- */

  ghost function AsInfinite(held: set<Entry>): iset<Entry> {
    iset e | e in held
  }

  function KeysOf(held: set<Entry>): set<Key> {
    set e | e in held :: e.key
  }

  /** The entries that would still be taken. */
  ghost function Missing(v: Register, held: set<Entry>): set<Entry> {
    set e | e in held && Takes(v, e)
  }

  /** Under every key `w` has what `v` has, or something newer. */
  ghost predicate NoOlder(v: Register, w: Register) {
    forall k | k in v :: k in w && (w[k] == v[k] || Older(v[k], w[k]))
  }

  lemma NoOlderJoins(u: Register, v: Register, w: Register)
    requires NoOlder(u, v) && NoOlder(v, w)
    ensures NoOlder(u, w)
    ensures u == w ==> v == w
  {
    hide Older;
    forall k | k in u ensures k in v && k in w && (w[k] == u[k] || Older(u[k], w[k])) && (u[k] == w[k] ==> v[k] == w[k]) {
      NotOlderJoins(u[k], v[k], w[k]);
    }
    if u == w { assert v.Keys == w.Keys; }
  }

  lemma NotOlderJoins(a: Stored, b: Stored, c: Stored)
    requires (b == a || Older(a, b)) && (c == b || Older(b, c))
    ensures c == a || Older(a, c)
    ensures a == c ==> b == c
  {
  }

  lemma {:induction false} PutAllIsNoOlder(v: Register, es: seq<Entry>)
    ensures NoOlder(v, PutAll(v, es))
    decreases |es|
  {
    if es != [] {
      PutAllIsNoOlder(Put(v, es[0]), es[1..]);
      NoOlderJoins(v, Put(v, es[0]), PutAll(v, es));
    }
  }

  lemma LessIsMissing(v: Register, w: Register, held: set<Entry>)
    requires NoOlder(v, w) && Within(w, AsInfinite(held))
    ensures Missing(w, held) <= Missing(v, held) && |Missing(w, held)| <= |Missing(v, held)|
    ensures v != w ==> |Missing(w, held)| < |Missing(v, held)|
  {
    var x, y := Missing(w, held), Missing(v, held);
    assert x <= y;
    SubsetSize(x, y);
    if v != w {
      var k :| k in w && (k in v ==> v[k] != w[k]);
      assert Entry(k, w[k]) in y && Entry(k, w[k]) !in x;
      SubsetSize(x, y - {Entry(k, w[k])});
    }
  }

  /* ---- the net ---- */

  datatype Message = Message(from: nat, to: nat, event: Event)

  /** The nodes, every message ever posted, and those not handled since they were last posted. */
  datatype Net = Net(nodes: seq<NodeState>, sent: set<Message>, pending: set<Message>)

  /** A node announces a date, or some posted message is handled where it was sent to. What is
      posted stays, so a message may be handled at any time, again, or never. */
  datatype Action = Announcing(who: nat, date: nat) | Handling(message: Message)

  /** An announcement goes to every other node, requests and replies to the one that asked. */
  function Posts(n: nat, me: nat, peer: nat, out: Output): set<Message> {
    match out
    case Infos(infos) => set j: nat | j < n && j != me :: Message(me, j, Announcement(infos))
    case Requests(names, date) => set name | name in names :: Message(me, peer, Request(name, date))
    case Reply(list) => {Message(me, peer, Response(list))}
    case _ => {}
  }

  predicate Possible(net: Net, a: Action) {
    match a
    case Announcing(who, _) => who < |net.nodes|
    case Handling(m) => m in net.sent && m.to < |net.nodes|
  }

  /** `None` where a node panics. */
  function Act(net: Net, a: Action): Option<Net>
    requires Possible(net, a)
  {
    match a
    case Announcing(who, date) => Acted(net, who, who, Announce(date), {})
    case Handling(m) => Acted(net, m.to, m.from, m.event, {m})
  }

  function Acted(net: Net, me: nat, peer: nat, e: Event, done: set<Message>): Option<Net>
    requires me < |net.nodes|
  {
    match Step(net.nodes[me], e)
    case None => None
    case Some((n, out)) =>
      var posts := Posts(|net.nodes|, me, peer, out);
      Some(Net(net.nodes[me := n], net.sent + posts, net.pending - done + posts))
  }

  ghost predicate IsHistory(net: Net, h: seq<Action>)
    decreases |h|
  {
    h != [] ==> Possible(net, h[0]) && (Act(net, h[0]).Some? ==> IsHistory(Act(net, h[0]).value, h[1..]))
  }

  function After(net: Net, h: seq<Action>): Option<Net>
    requires IsHistory(net, h)
    decreases |h|
  {
    if h == [] then Some(net)
    else
      match Act(net, h[0])
      case None => None
      case Some(next) => After(next, h[1..])
  }

  /* ---- what every action keeps ---- */

  /** The opinions about: none tie, no two have one signature. */
  ghost predicate Orderly(held: set<Entry>) {
    TieFree(AsInfinite(held)) && UniquelySigned(AsInfinite(held))
  }

  /** The node is sound, holds only opinions that are about, and could take all of them. */
  ghost predicate Fits(n: NodeState, held: set<Entry>, ar: Arity) {
    Sound(n, ar) && Within(View(n.db), AsInfinite(held)) && Understands(n.db, KeysOf(held))
  }

  ghost predicate Carries(list: seq<SignedStatement>, held: set<Entry>, ar: Arity) {
    && (forall s | s in list :: AcceptableSigned(s, ar) && s.opinions != [])
    && (forall e | e in Entries(list) :: e in held)
  }

  ghost predicate EventFits(e: Event, held: set<Entry>, ar: Arity) {
    match e
    case Announce(_) => true
    case Announcement(_) => true
    case Request(_, _) => true
    case Response(list) => Carries(list, held, ar)
    case _ => false
  }

  ghost predicate NetFits(net: Net, held: set<Entry>, ar: Arity) {
    && GoodArity(ar)
    && (forall n | n in net.nodes :: Fits(n, held, ar))
    && (forall m | m in net.sent :: m.from < |net.nodes| && m.to < |net.nodes| && EventFits(m.event, held, ar))
    && net.pending <= net.sent
  }

  lemma CarriedIsUnderstood(db: Db, list: seq<SignedStatement>, held: set<Entry>, ar: Arity)
    requires Carries(list, held, ar) && Understands(db, KeysOf(held))
    ensures forall s | s in list :: TemplateStored(db, s.statement)
  {
    hide TemplateStored, Printable, TemplateConforms, AcceptableOpinion;
    forall s | s in list ensures TemplateStored(db, s.statement) {
      assert AcceptableSigned(s, ar);
      EntriesAboutStatement(ContentsOf(s.statement), s.opinions);
      var e := EntriesOf(s)[0];
      EntryInEntries(list, s, e);
    }
  }

  /** No step fails, no view gets older, and what is sent carries what is about. */
  lemma StepFits(n: NodeState, e: Event, held: set<Entry>, ar: Arity)
    requires GoodArity(ar) && Fits(n, held, ar) && EventFits(e, held, ar)
    ensures Step(n, e).Some?
    ensures var (n', out) := Step(n, e).value;
            && Fits(n', held, ar) && NoOlder(View(n.db), View(n'.db))
            && (if e.Response? then View(n'.db) == PutAll(View(n.db), Entries(e.list)) else n'.db == n.db)
            && (out.Reply? ==> Carries(out.list, held, ar))
  {
    hide View, Valid, KnowsSigners, Coherent, Understands, Within, Carries, GetSyncInfos, Requested, ListNamed, Merge, PutAll,
      AcceptableSigned, TemplateStored, NoOlder, StatementsGrown, Entries;
    match e
    case Response(list) =>
      ResponseFits(n, list, held, ar);
    case Request(name, date) =>
      ReplyFits(n.db, name, date, held, ar);
      SelfIsNoOlder(View(n.db));
      StepIsSound(n, e, ar);
    case _ =>
      SelfIsNoOlder(View(n.db));
      StepIsSound(n, e, ar);
  }

  lemma SelfIsNoOlder(v: Register)
    ensures NoOlder(v, v)
  {
  }

  lemma ReplyFits(db: Db, name: string, date: nat, held: set<Entry>, ar: Arity)
    requires GoodArity(ar) && Valid(db, ar) && Within(View(db), AsInfinite(held))
    ensures var list := ListNamed(db, name, date);
            && list.Some? && Carries(list.value, held, ar)
            && (forall e :: e in Entries(list.value) <==> OnNameAndDate(View(db), e, name, date))
  {
    hide View, ValidTables, CacheCovers, ListNamed, AcceptableSigned, Entries;
    ReplyCarries(db, name, date, ar);
  }

  lemma ResponseFits(n: NodeState, list: seq<SignedStatement>, held: set<Entry>, ar: Arity)
    requires GoodArity(ar) && Fits(n, held, ar) && Carries(list, held, ar)
    ensures Step(n, Response(list)).Some?
    ensures var (n', out) := Step(n, Response(list)).value;
            && Fits(n', held, ar) && NoOlder(View(n.db), View(n'.db)) && out == Nothing
            && View(n'.db) == PutAll(View(n.db), Entries(list))
  {
    hide View, Valid, KnowsSigners, Coherent, Understands, Within, Merge, PutAll, AcceptableSigned, TemplateStored, NoOlder,
      StatementsGrown, Entries, Put;
    CarriedIsUnderstood(n.db, list, held, ar);
    StepIsSound(n, Response(list), ar);
    MergePuts(n.db, list, ar);
    var n' := Step(n, Response(list)).value.0;
    UnderstandsMore(n.db, n'.db, KeysOf(held), KeysOf(held));
    PutAllIsNoOlder(View(n.db), Entries(list));
    PutAllWithin(View(n.db), Entries(list), AsInfinite(held));
  }

  /** Node by node, nothing older. */
  ghost predicate AllNoOlder(net: Net, next: Net) {
    && |net.nodes| == |next.nodes|
    && forall i | 0 <= i < |net.nodes| :: NoOlder(View(net.nodes[i].db), View(next.nodes[i].db))
  }

  ghost predicate SameViews(net: Net, next: Net) {
    && |net.nodes| == |next.nodes|
    && forall i | 0 <= i < |net.nodes| :: View(net.nodes[i].db) == View(next.nodes[i].db)
  }

  lemma ActedFits(net: Net, me: nat, peer: nat, e: Event, done: set<Message>, held: set<Entry>, ar: Arity)
    requires NetFits(net, held, ar) && me < |net.nodes| && peer < |net.nodes| && EventFits(e, held, ar)
    ensures var r := Acted(net, me, peer, e, done);
            && r.Some? && NetFits(r.value, held, ar) && AllNoOlder(net, r.value) && net.sent <= r.value.sent
  {
    hide Fits, View, Carries, Step, NoOlder, Posts, EventFits;
    var n := net.nodes[me];
    assert Fits(n, held, ar);
    StepFits(n, e, held, ar);
    var (n', out) := Step(n, e).value;
    PostsFit(|net.nodes|, me, peer, n, e, held, ar);
    forall i | 0 <= i < |net.nodes| ensures NoOlder(View(net.nodes[i].db), View(net.nodes[me := n'][i].db)) {
      SelfIsNoOlder(View(net.nodes[i].db));
    }
    assert forall x | x in net.nodes[me := n'] :: x == n' || x in net.nodes;
  }

  lemma PostsFit(count: nat, me: nat, peer: nat, n: NodeState, e: Event, held: set<Entry>, ar: Arity)
    requires GoodArity(ar) && Fits(n, held, ar) && EventFits(e, held, ar) && me < count && peer < count
    requires Step(n, e).Some?
    ensures forall m | m in Posts(count, me, peer, Step(n, e).value.1) ::
              m.from < count && m.to < count && EventFits(m.event, held, ar)
  {
    hide Fits, View, Carries, Step, NoOlder;
    StepFits(n, e, held, ar);
    OutputIsPosted(n, e);
  }

  lemma OutputIsPosted(n: NodeState, e: Event)
    requires Step(n, e).Some?
    ensures Step(n, e).value.1.TemplatesRequested? ==> e.Connected?
  {
    hide OwnInfos, PersistSigned, Merge, ListNamed, Requested, AllTemplates, TemplateReply;
  }

  lemma ActFits(net: Net, a: Action, held: set<Entry>, ar: Arity)
    requires NetFits(net, held, ar) && Possible(net, a)
    ensures Act(net, a).Some? && NetFits(Act(net, a).value, held, ar)
    ensures AllNoOlder(net, Act(net, a).value) && net.sent <= Act(net, a).value.sent
  {
    hide Fits, AllNoOlder, Acted, Carries;
    match a
    case Announcing(who, date) => ActedFits(net, who, who, Announce(date), {}, held, ar);
    case Handling(m) => ActedFits(net, m.to, m.from, m.event, {m}, held, ar);
  }

  lemma AllNoOlderJoins(a: Net, b: Net, c: Net)
    requires AllNoOlder(a, b) && AllNoOlder(b, c)
    ensures AllNoOlder(a, c)
    ensures SameViews(a, c) ==> SameViews(a, b) && SameViews(b, c)
  {
    hide NoOlder, View;
    forall i | 0 <= i < |a.nodes|
      ensures NoOlder(View(a.nodes[i].db), View(c.nodes[i].db))
      ensures View(a.nodes[i].db) == View(c.nodes[i].db) ==> View(b.nodes[i].db) == View(c.nodes[i].db)
    {
      NoOlderJoins(View(a.nodes[i].db), View(b.nodes[i].db), View(c.nodes[i].db));
    }
  }

  lemma SelfIsAllNoOlder(net: Net)
    ensures AllNoOlder(net, net)
  {
    hide View;
  }

  /** No history fails, whatever crosses, is lost or comes again, and no view gets older. */
  lemma {:induction false} HistoryFits(net: Net, h: seq<Action>, held: set<Entry>, ar: Arity)
    requires NetFits(net, held, ar) && IsHistory(net, h)
    ensures var end := After(net, h);
            && end.Some? && NetFits(end.value, held, ar) && AllNoOlder(net, end.value) && net.sent <= end.value.sent
    decreases |h|
  {
    hide NetFits, AllNoOlder, Possible, Act;
    if h == [] {
      SelfIsAllNoOlder(net);
    } else {
      ActFits(net, h[0], held, ar);
      var next := Act(net, h[0]).value;
      HistoryFits(next, h[1..], held, ar);
      AllNoOlderJoins(net, next, After(next, h[1..]).value);
    }
  }

  /* ---- how much can still be learned ---- */

  ghost function Left(nodes: seq<NodeState>, held: set<Entry>): nat {
    if nodes == [] then 0 else |Missing(View(nodes[0].db), held)| + Left(nodes[1..], held)
  }

  lemma {:induction false} LeftFalls(ns: seq<NodeState>, ms: seq<NodeState>, held: set<Entry>)
    requires |ns| == |ms|
    requires forall i | 0 <= i < |ns| :: NoOlder(View(ns[i].db), View(ms[i].db)) && Within(View(ms[i].db), AsInfinite(held))
    ensures Left(ms, held) <= Left(ns, held)
    ensures (exists i | 0 <= i < |ns| :: View(ns[i].db) != View(ms[i].db)) ==> Left(ms, held) < Left(ns, held)
    decreases |ns|
  {
    hide View, NoOlder, Within, Missing;
    if ns != [] {
      LessIsMissing(View(ns[0].db), View(ms[0].db), held);
      LeftFalls(ns[1..], ms[1..], held);
      if i :| 0 <= i < |ns| && View(ns[i].db) != View(ms[i].db) {
        if i > 0 { assert View(ns[1..][i - 1].db) != View(ms[1..][i - 1].db); }
      }
    }
  }

  lemma NetLeftFalls(net: Net, next: Net, held: set<Entry>, ar: Arity)
    requires AllNoOlder(net, next) && NetFits(next, held, ar)
    ensures Left(next.nodes, held) <= Left(net.nodes, held)
    ensures !SameViews(net, next) ==> Left(next.nodes, held) < Left(net.nodes, held)
  {
    hide View, NoOlder, Within, Left, Sound, Understands, Carries;
    forall i | 0 <= i < |next.nodes| ensures Within(View(next.nodes[i].db), AsInfinite(held)) {
      assert Fits(next.nodes[i], held, ar);
    }
    LeftFalls(net.nodes, next.nodes, held);
  }

  /** How many actions of a history change some view. */
  ghost function Changes(net: Net, h: seq<Action>): nat
    requires IsHistory(net, h)
    decreases |h|
  {
    if h == [] then 0
    else
      match Act(net, h[0])
      case None => 0
      case Some(next) => (if SameViews(net, next) then 0 else 1) + Changes(next, h[1..])
  }

  /** However long a history is, at most so many of its actions change a view as there were
      newer opinions to learn, over all nodes. */
  lemma {:induction false} ChangesAreBounded(net: Net, h: seq<Action>, held: set<Entry>, ar: Arity)
    requires NetFits(net, held, ar) && IsHistory(net, h)
    ensures After(net, h).Some?
    ensures Changes(net, h) + Left(After(net, h).value.nodes, held) <= Left(net.nodes, held)
    decreases |h|
  {
    hide NetFits, AllNoOlder, Possible, Act, Left, SameViews;
    if h != [] {
      ActFits(net, h[0], held, ar);
      var next := Act(net, h[0]).value;
      NetLeftFalls(net, next, held, ar);
      ChangesAreBounded(next, h[1..], held, ar);
    }
  }

  /* ---- agreement ---- */

  ghost predicate Agreed(net: Net) {
    forall i, j | 0 <= i < |net.nodes| && 0 <= j < |net.nodes| :: View(net.nodes[i].db) == View(net.nodes[j].db)
  }

  /** No announcement of any date causes a request anywhere. */
  ghost predicate Silent(net: Net) {
    forall i, j, date: nat | 0 <= i < |net.nodes| && 0 <= j < |net.nodes| ::
      Requested(GetSyncInfos(net.nodes[i].db, date), GetSyncInfos(net.nodes[j].db, date)) == {}
  }

  /** For every opinion about, some node has it or a newer one. */
  ghost predicate HeldSomewhere(net: Net, held: set<Entry>) {
    forall e | e in held :: exists i | 0 <= i < |net.nodes| :: !Takes(View(net.nodes[i].db), e)
  }

  /** Silence is agreement. */
  lemma SilentIsAgreed(net: Net, held: set<Entry>, ar: Arity)
    requires NetFits(net, held, ar) && Orderly(held)
    ensures Silent(net) <==> Agreed(net)
  {
    hide View, Requested, GetSyncInfos, Within, UniquelySigned, TieFree, Valid, KnowsSigners, Coherent, Understands, Carries;
    forall i, j | 0 <= i < |net.nodes| && 0 <= j < |net.nodes|
      ensures QuietPair(net, i, j) <==> View(net.nodes[i].db) == View(net.nodes[j].db)
    {
      assert Fits(net.nodes[i], held, ar) && Fits(net.nodes[j], held, ar);
      ValidHasTables(net.nodes[i].db, ar);
      ValidHasTables(net.nodes[j].db, ar);
      QuiescenceEverywhere(net.nodes[i].db, net.nodes[j].db, AsInfinite(held), ar);
    }
    if Agreed(net) {
      forall i, j, date: nat | 0 <= i < |net.nodes| && 0 <= j < |net.nodes|
        ensures Requested(GetSyncInfos(net.nodes[i].db, date), GetSyncInfos(net.nodes[j].db, date)) == {}
      {
        assert QuietPair(net, i, j);
      }
    }
    if Silent(net) {
      forall i, j | 0 <= i < |net.nodes| && 0 <= j < |net.nodes| ensures View(net.nodes[i].db) == View(net.nodes[j].db) {
        assert QuietPair(net, i, j);
      }
    }
  }

  ghost predicate QuietPair(net: Net, i: nat, j: nat)
    requires i < |net.nodes| && j < |net.nodes|
  {
    forall date: nat ::
      && Requested(GetSyncInfos(net.nodes[i].db, date), GetSyncInfos(net.nodes[j].db, date)) == {}
      && Requested(GetSyncInfos(net.nodes[j].db, date), GetSyncInfos(net.nodes[i].db, date)) == {}
  }

  /** What some node has, some node goes on having, or something newer: the newest opinion of
      every signer on every statement is never lost. */
  lemma HeldStays(net: Net, next: Net, held: set<Entry>)
    requires AllNoOlder(net, next) && HeldSomewhere(net, held)
    ensures HeldSomewhere(next, held)
  {
    hide View;
    forall e | e in held ensures exists i | 0 <= i < |next.nodes| :: !Takes(View(next.nodes[i].db), e) {
      var i :| 0 <= i < |net.nodes| && !Takes(View(net.nodes[i].db), e);
      assert NoOlder(View(net.nodes[i].db), View(next.nodes[i].db));
      assert !Takes(View(next.nodes[i].db), e);
    }
  }

  /** The nodes agree if and only if none of them lacks anything. */
  lemma AgreedIsNothingLeft(net: Net, held: set<Entry>, ar: Arity)
    requires NetFits(net, held, ar) && Orderly(held) && HeldSomewhere(net, held)
    ensures Agreed(net) <==> Left(net.nodes, held) == 0
  {
    hide View, Sound, Understands, Carries, UniquelySigned, Takes, TieFree, Left;
    NothingLeft(net.nodes, held);
    if Agreed(net) {
      forall n | n in net.nodes ensures Missing(View(n.db), held) == {} {
        forall e | e in held ensures !Takes(View(n.db), e) {
          var i :| 0 <= i < |net.nodes| && !Takes(View(net.nodes[i].db), e);
        }
      }
    }
    if forall n | n in net.nodes :: Missing(View(n.db), held) == {} {
      forall i, j | 0 <= i < |net.nodes| && 0 <= j < |net.nodes| ensures View(net.nodes[i].db) == View(net.nodes[j].db) {
        assert Fits(net.nodes[i], held, ar) && Fits(net.nodes[j], held, ar);
        NewestIsOne(View(net.nodes[i].db), View(net.nodes[j].db), held);
      }
    }
  }

  lemma {:induction false} NothingLeft(nodes: seq<NodeState>, held: set<Entry>)
    ensures Left(nodes, held) == 0 <==> forall n | n in nodes :: Missing(View(n.db), held) == {}
  {
    hide View, Missing;
    if nodes != [] {
      NothingLeft(nodes[1..], held);
      assert forall n :: n in nodes <==> n == nodes[0] || n in nodes[1..];
    }
  }

  lemma NewestIsOne(v: Register, w: Register, held: set<Entry>)
    requires TieFree(AsInfinite(held)) && Within(v, AsInfinite(held)) && Within(w, AsInfinite(held))
    requires Missing(v, held) == {} && Missing(w, held) == {}
    ensures v == w
  {
    forall k | k in v ensures k in w && v[k] == w[k] {
      assert Entry(k, v[k]) in held && Entry(k, v[k]) !in Missing(w, held);
      assert Entry(k, w[k]) in held && Entry(k, w[k]) !in Missing(v, held);
    }
    forall k | k in w ensures k in v {
      assert Entry(k, w[k]) in held && Entry(k, w[k]) !in Missing(v, held);
    }
    assert v.Keys == w.Keys;
  }

  /* ---- histories in which nothing is learned ---- */

  lemma {:induction false} HistorySplits(net: Net, h: seq<Action>, k: nat)
    requires k <= |h| && IsHistory(net, h) && After(net, h).Some?
    ensures IsHistory(net, h[..k]) && After(net, h[..k]).Some?
    ensures var mid := After(net, h[..k]).value; IsHistory(mid, h[k..]) && After(mid, h[k..]) == After(net, h)
    decreases k
  {
    hide Act, Possible;
    if k == 0 {
      assert h[..0] == [] && h[0..] == h;
    } else {
      var next := Act(net, h[0]).value;
      HistorySplits(next, h[1..], k - 1);
      assert h[..k][0] == h[0] && h[..k][1..] == h[1..][..k - 1] && h[1..][k - 1..] == h[k..];
    }
  }

  /** What is no longer pending at the end was handled on the way. */
  lemma {:induction false} IsHandled(net: Net, h: seq<Action>, m: Message) returns (k: nat)
    requires IsHistory(net, h) && After(net, h).Some?
    requires m in net.pending && m !in After(net, h).value.pending
    ensures k < |h| && h[k] == Handling(m)
    decreases |h|
  {
    hide Step, Posts;
    if h[0] == Handling(m) {
      k := 0;
    } else {
      k := IsHandled(Act(net, h[0]).value, h[1..], m);
      k := k + 1;
    }
  }

  /** A history that leaves no message unhandled and every view as it was. */
  ghost predicate Idle(net: Net, h: seq<Action>, held: set<Entry>, ar: Arity) {
    && NetFits(net, held, ar) && IsHistory(net, h)
    && After(net, h).Some? && SameViews(net, After(net, h).value) && After(net, h).value.pending == {}
  }

  /** From any point on it is such a history, too. */
  lemma IdleFrom(net: Net, h: seq<Action>, k: nat, held: set<Entry>, ar: Arity) returns (mid: Net)
    requires Idle(net, h, held, ar) && k <= |h|
    ensures IsHistory(net, h[..k]) && After(net, h[..k]) == Some(mid) && SameViews(net, mid) && Idle(mid, h[k..], held, ar)
  {
    hide NetFits, AllNoOlder, SameViews, Act, Possible;
    HistorySplits(net, h, k);
    mid := After(net, h[..k]).value;
    HistoryFits(net, h[..k], held, ar);
    HistoryFits(mid, h[k..], held, ar);
    AllNoOlderJoins(net, mid, After(net, h).value);
  }

  /** The state before its `k`-th action, and the one after. */
  lemma IdleAct(net: Net, h: seq<Action>, k: nat, held: set<Entry>, ar: Arity) returns (mid: Net, next: Net)
    requires Idle(net, h, held, ar) && k < |h|
    ensures SameViews(net, mid) && NetFits(mid, held, ar) && Possible(mid, h[k]) && Act(mid, h[k]) == Some(next)
    ensures SameViews(net, next) && Idle(next, h[k + 1..], held, ar)
  {
    hide NetFits, AllNoOlder, Act, Possible, View;
    mid := IdleFrom(net, h, k, held, ar);
    ActFits(mid, h[k], held, ar);
    next := Act(mid, h[k]).value;
    assert h[k..][0] == h[k] && h[k..][1..] == h[k + 1..] && h[k..][..1] == [h[k]];
    var after := IdleFrom(mid, h[k..], 1, held, ar);
    assert [h[k]][1..] == [];
    assert after == next;
  }

  ghost predicate TakesNone(v: Register, es: seq<Entry>) {
    forall e | e in es :: !Takes(v, e)
  }

  lemma UnchangedTakesNone(v: Register, es: seq<Entry>)
    requires PutAll(v, es) == v
    ensures TakesNone(v, es)
  {
    hide PutAll;
    forall e | e in es ensures !Takes(v, e) {
      PutAllIsNewest(v, es, e.key);
    }
  }

  /** A reply that was pending held nothing new. */
  lemma IdleResponse(net: Net, h: seq<Action>, m: Message, held: set<Entry>, ar: Arity)
    requires Idle(net, h, held, ar) && m in net.pending && m.event.Response? && m.to < |net.nodes|
    ensures TakesNone(View(net.nodes[m.to].db), Entries(m.event.list))
  {
    hide View, Fits, PutAll, Entries, TakesNone, Act, Possible, IsHistory, After, Step, Carries;
    var k := IsHandled(net, h, m);
    var mid, next := IdleAct(net, h, k, held, ar);
    HandledResponse(mid, next, m, held, ar);
    UnchangedTakesNone(View(net.nodes[m.to].db), Entries(m.event.list));
  }

  lemma HandledResponse(mid: Net, next: Net, m: Message, held: set<Entry>, ar: Arity)
    requires NetFits(mid, held, ar) && Possible(mid, Handling(m)) && Act(mid, Handling(m)) == Some(next)
    requires m.event.Response?
    ensures |next.nodes| == |mid.nodes|
    ensures View(next.nodes[m.to].db) == PutAll(View(mid.nodes[m.to].db), Entries(m.event.list))
  {
    hide View, Fits, PutAll, Entries, Step, Carries;
    assert Fits(mid.nodes[m.to], held, ar);
    StepFits(mid.nodes[m.to], m.event, held, ar);
  }

  /** What was asked for on the way: nothing of it was new to who asked. */
  lemma IdleRequest(net: Net, h: seq<Action>, m: Message, held: set<Entry>, ar: Arity)
    requires Idle(net, h, held, ar) && m in net.pending && m.event.Request? && m.from < |net.nodes| && m.to < |net.nodes|
    ensures forall e | OnNameAndDate(View(net.nodes[m.to].db), e, m.event.name, m.event.on) ::
              !Takes(View(net.nodes[m.from].db), e)
  {
    hide View, Fits, Entries, Act, Possible, IsHistory, After, Step, Carries, OnNameAndDate, Takes;
    var k := IsHandled(net, h, m);
    var mid, next := IdleAct(net, h, k, held, ar);
    var reply := HandledRequest(mid, next, m, held, ar);
    IdleResponse(next, h[k + 1..], reply, held, ar);
    assert TakesNone(View(net.nodes[m.from].db), Entries(reply.event.list));
  }

  lemma HandledRequest(mid: Net, next: Net, m: Message, held: set<Entry>, ar: Arity) returns (reply: Message)
    requires NetFits(mid, held, ar) && Possible(mid, Handling(m)) && Act(mid, Handling(m)) == Some(next)
    requires m.event.Request?
    ensures reply in next.pending && reply.to == m.from && reply.event.Response?
    ensures forall e :: e in Entries(reply.event.list) <==> OnNameAndDate(View(mid.nodes[m.to].db), e, m.event.name, m.event.on)
  {
    hide View, Valid, KnowsSigners, Coherent, Understands, Within, Entries, Carries, OnNameAndDate, ListNamed;
    var n := mid.nodes[m.to];
    assert Fits(n, held, ar);
    ReplyFits(n.db, m.event.name, m.event.on, held, ar);
    reply := Message(m.to, m.from, Response(ListNamed(n.db, m.event.name, m.event.on).value));
  }

  /** An announcement that was pending, of what a store with the announcer's view holds: no
      name it makes the hearer ask for brought the hearer anything new. */
  lemma IdleAnnouncement(
      net: Net, h: seq<Action>, m: Message, at: Db, date: nat, name: string, held: set<Entry>, ar: Arity)
    requires Idle(net, h, held, ar) && Orderly(held) && m in net.pending && m.from < |net.nodes| && m.to < |net.nodes|
    requires m.event == Announcement(GetSyncInfos(at, date)) && ValidTables(at, ar) && View(at) == View(net.nodes[m.from].db)
    requires Wants(View(net.nodes[m.to].db), View(net.nodes[m.from].db), name, date)
    ensures forall e | OnNameAndDate(View(net.nodes[m.from].db), e, name, date) :: !Takes(View(net.nodes[m.to].db), e)
  {
    hide View, Fits, Entries, Act, Possible, IsHistory, After, Step, Carries, OnNameAndDate, Takes, GetSyncInfos, Wants,
      ValidTables, TieFree, UniquelySigned;
    var k := IsHandled(net, h, m);
    var mid, next := IdleAct(net, h, k, held, ar);
    HandledAnnouncement(mid, next, m, at, date, name, held, ar);
    IdleRequest(next, h[k + 1..], Message(m.to, m.from, Request(name, date)), held, ar);
  }

  lemma HandledAnnouncement(
      mid: Net, next: Net, m: Message, at: Db, date: nat, name: string, held: set<Entry>, ar: Arity)
    requires NetFits(mid, held, ar) && Orderly(held) && Possible(mid, Handling(m)) && Act(mid, Handling(m)) == Some(next)
    requires m.from < |mid.nodes| && m.event == Announcement(GetSyncInfos(at, date))
    requires ValidTables(at, ar) && View(at) == View(mid.nodes[m.from].db)
    requires Wants(View(mid.nodes[m.to].db), View(at), name, date)
    ensures Message(m.to, m.from, Request(name, date)) in next.pending
  {
    hide View, ValidTables, CacheCovers, KnowsSigners, Understands, Within, Carries, GetSyncInfos, Requested, Wants,
      TieFree, UniquelySigned;
    var n := mid.nodes[m.to];
    assert Fits(n, held, ar) && Fits(mid.nodes[m.from], held, ar);
    SignedIsDistinct(View(n.db), AsInfinite(held));
    SignedIsDistinct(View(at), AsInfinite(held));
    DatedInfos(at, date);
    DatedInfos(n.db, date);
    RequestMeans(n.db, at, name, date, ar);
    assert OwnInfos(n, date).1 == GetSyncInfos(n.db, date);
  }

  /** A node announced a date on the way: whatever another would want of it then is old. */
  lemma IdleAnnouncing(net: Net, h: seq<Action>, i: nat, j: nat, date: nat, name: string, held: set<Entry>, ar: Arity)
    requires Idle(net, h, held, ar) && Orderly(held) && Announcing(i, date) in h && i < |net.nodes| && j < |net.nodes| && i != j
    requires Wants(View(net.nodes[j].db), View(net.nodes[i].db), name, date)
    ensures forall e | OnNameAndDate(View(net.nodes[i].db), e, name, date) :: !Takes(View(net.nodes[j].db), e)
  {
    hide View, Fits, Entries, Act, Possible, IsHistory, After, Step, Carries, OnNameAndDate, Takes, GetSyncInfos, Wants,
      ValidTables, TieFree, UniquelySigned;
    var k :| 0 <= k < |h| && h[k] == Announcing(i, date);
    var mid, next := IdleAct(net, h, k, held, ar);
    AnnouncedTo(mid, next, i, j, date, held, ar);
    IdleAnnouncement(next, h[k + 1..], Message(i, j, Announcement(GetSyncInfos(mid.nodes[i].db, date))), mid.nodes[i].db,
      date, name, held, ar);
  }

  lemma AnnouncedTo(mid: Net, next: Net, i: nat, j: nat, date: nat, held: set<Entry>, ar: Arity)
    requires NetFits(mid, held, ar) && Possible(mid, Announcing(i, date)) && Act(mid, Announcing(i, date)) == Some(next)
    requires j < |mid.nodes| && i != j
    ensures Message(i, j, Announcement(GetSyncInfos(mid.nodes[i].db, date))) in next.pending
    ensures ValidTables(mid.nodes[i].db, ar)
  {
    hide View, ValidTables, CacheCovers, KnowsSigners, Understands, Within, Carries, GetSyncInfos;
    var n := mid.nodes[i];
    assert Fits(n, held, ar);
    assert OwnInfos(n, date).1 == GetSyncInfos(n.db, date);
  }

  /* ---- fair histories ---- */

  /** Every node announces every date about, and in the end every message has been handled
      since it was last posted. What else happens, and in what order, is left open. */
  ghost predicate Thorough(net: Net, h: seq<Action>, held: set<Entry>) {
    && IsHistory(net, h) && After(net, h).Some? && After(net, h).value.pending == {}
    && forall i: nat, e | i < |net.nodes| && e in held :: Announcing(i, e.stored.date) in h
  }

  /** A thorough history teaches some node something, unless all agree already. */
  lemma ThoroughTeaches(net: Net, h: seq<Action>, held: set<Entry>, ar: Arity)
    requires NetFits(net, held, ar) && Orderly(held) && Thorough(net, h, held)
    requires SameViews(net, After(net, h).value)
    ensures Agreed(net)
  {
    hide View, Sound, Understands, Carries, TieFree, UniquelySigned, IsHistory, After;
    forall i: nat, j: nat | i < |net.nodes| && j < |net.nodes| ensures View(net.nodes[i].db) == View(net.nodes[j].db) {
      if View(net.nodes[i].db) != View(net.nodes[j].db) {
        assert Fits(net.nodes[i], held, ar) && Fits(net.nodes[j], held, ar);
        PairIsTaught(net, h, i, j, held, ar);
      }
    }
  }

  lemma PairIsTaught(net: Net, h: seq<Action>, i: nat, j: nat, held: set<Entry>, ar: Arity)
    requires NetFits(net, held, ar) && Orderly(held) && Thorough(net, h, held)
    requires SameViews(net, After(net, h).value) && i < |net.nodes| && j < |net.nodes|
    requires Within(View(net.nodes[i].db), AsInfinite(held)) && Within(View(net.nodes[j].db), AsInfinite(held))
    ensures View(net.nodes[i].db) == View(net.nodes[j].db)
  {
    hide View, NetFits, TieFree, UniquelySigned, IsHistory, After, SameOn, Wants, OnNameAndDate, Takes, SameViews;
    var v, w := View(net.nodes[i].db), View(net.nodes[j].db);
    if v != w {
      NoLaterDates(v, w);
      var date := HighestDate(v, w, 0x1_0000_0000);
      var e := DifferenceIsHeld(v, w, date, held);
      var all := AsInfinite(held);
      var name := SomeRequest(v, w, date, all);
      assert Announcing(i, e.stored.date) in h && Announcing(j, e.stored.date) in h;
      assert Idle(net, h, held, ar);
      if Wants(w, v, name, date) { IdleAnnouncing(net, h, i, j, date, name, held, ar); }
      if Wants(v, w, name, date) { IdleAnnouncing(net, h, j, i, date, name, held, ar); }
      if Wants(v, w, name, date) {
        var f := RequestIsProductive(v, w, name, date, all);
        assert false;
      } else {
        assert forall later: nat | later > date :: SameOn(w, v, later) by { SameOnTurns(v, w); }
        var f := RequestIsProductive(w, v, name, date, all);
        assert false;
      }
    }
  }

  lemma SameOnTurns(v: Register, w: Register)
    ensures forall date: nat :: SameOn(v, w, date) ==> SameOn(w, v, date)
  {
  }

  lemma DifferenceIsHeld(v: Register, w: Register, date: nat, held: set<Entry>) returns (e: Entry)
    requires !SameOn(v, w, date) && Within(v, AsInfinite(held)) && Within(w, AsInfinite(held))
    ensures e in held && e.stored.date == date
  {
    var k :| ((k in v && v[k].date == date) || (k in w && w[k].date == date)) && !(k in v && k in w && v[k] == w[k]);
    e := if k in v && v[k].date == date then Entry(k, v[k]) else Entry(k, w[k]);
  }

  /** The histories follow one another, each of them thorough. */
  ghost predicate AllThorough(net: Net, hs: seq<seq<Action>>, held: set<Entry>)
    decreases |hs|
  {
    hs != [] ==> Thorough(net, hs[0], held) && AllThorough(After(net, hs[0]).value, hs[1..], held)
  }

  ghost function AfterAll(net: Net, hs: seq<seq<Action>>, held: set<Entry>): Net
    requires AllThorough(net, hs, held)
    decreases |hs|
  {
    if hs == [] then net else AfterAll(After(net, hs[0]).value, hs[1..], held)
  }

  /** As many thorough histories as there were opinions to learn lead every node to the newest
      opinion of every signer on every statement, and there they stay. */
  lemma {:induction false} ThoroughHistoriesConverge(net: Net, hs: seq<seq<Action>>, held: set<Entry>, ar: Arity)
    requires NetFits(net, held, ar) && Orderly(held) && HeldSomewhere(net, held) && AllThorough(net, hs, held)
    requires |hs| >= Left(net.nodes, held)
    ensures var end := AfterAll(net, hs, held);
            && NetFits(end, held, ar) && Agreed(end) && Silent(end)
            && forall n | n in end.nodes :: Missing(View(n.db), held) == {}
    decreases |hs|
  {
    hide View, NetFits, Orderly, HeldSomewhere, IsHistory, After, Left, Agreed, Silent, Missing, AllNoOlder, SameViews;
    AgreedIsNothingLeft(net, held, ar);
    if hs == [] {
      SilentIsAgreed(net, held, ar);
      NothingLeft(net.nodes, held);
    } else {
      var next := After(net, hs[0]).value;
      HistoryFits(net, hs[0], held, ar);
      NetLeftFalls(net, next, held, ar);
      HeldStays(net, next, held);
      if SameViews(net, next) { ThoroughTeaches(net, hs[0], held, ar); }
      ThoroughHistoriesConverge(next, hs[1..], held, ar);
    }
  }

  /* ---- fair histories exist ---- */

  lemma {:induction false} HistoriesJoin(net: Net, g: seq<Action>, h: seq<Action>)
    requires IsHistory(net, g) && After(net, g).Some? && IsHistory(After(net, g).value, h)
    ensures IsHistory(net, g + h) && After(net, g + h) == After(After(net, g).value, h)
    decreases |g|
  {
    hide Act, Possible;
    if g == [] {
      assert g + h == h;
    } else {
      assert (g + h)[0] == g[0] && (g + h)[1..] == g[1..] + h;
      HistoriesJoin(Act(net, g[0]).value, g[1..], h);
    }
  }

  /** What handling a message can post is of a lower rank. */
  function Rank(e: Event): nat {
    match e
    case Announce(_) => 3
    case Announcement(_) => 2
    case Request(_, _) => 1
    case _ => 0
  }

  function Ranked(ms: set<Message>, r: nat): set<Message> {
    set m | m in ms && Rank(m.event) == r
  }

  lemma PostsRankLower(count: nat, me: nat, peer: nat, n: NodeState, e: Event)
    requires Step(n, e).Some? && (e.Announce? || e.Announcement? || e.Request? || e.Response?)
    ensures forall m | m in Posts(count, me, peer, Step(n, e).value.1) :: Rank(m.event) < Rank(e)
  {
    hide OwnInfos, PersistSigned, Merge, ListNamed, Requested, AllTemplates, TemplateReply;
  }

  lemma HandledLeaves(net: Net, m: Message, held: set<Entry>, ar: Arity) returns (next: Net)
    requires NetFits(net, held, ar) && m in net.pending
    ensures Possible(net, Handling(m)) && Act(net, Handling(m)) == Some(next) && NetFits(next, held, ar)
    ensures forall r: nat | r > Rank(m.event) :: |Ranked(next.pending, r)| == |Ranked(net.pending, r)|
    ensures |Ranked(next.pending, Rank(m.event))| < |Ranked(net.pending, Rank(m.event))|
  {
    hide Fits, Carries, Step, Posts, Rank;
    ActFits(net, Handling(m), held, ar);
    next := Act(net, Handling(m)).value;
    var n := net.nodes[m.to];
    PostsRankLower(|net.nodes|, m.to, m.from, n, m.event);
    var posts := Posts(|net.nodes|, m.to, m.from, Step(n, m.event).value.1);
    assert next.pending == net.pending - {m} + posts;
    forall r: nat | r > Rank(m.event) ensures Ranked(next.pending, r) == Ranked(net.pending, r) {
    }
    assert Ranked(next.pending, Rank(m.event)) == Ranked(net.pending, Rank(m.event)) - {m};
    assert m in Ranked(net.pending, Rank(m.event));
  }

  /** Handling whatever is pending comes to an end. */
  lemma {:induction false} Drained(net: Net, held: set<Entry>, ar: Arity) returns (h: seq<Action>)
    requires NetFits(net, held, ar)
    ensures IsHistory(net, h) && After(net, h).Some? && After(net, h).value.pending == {}
    decreases |Ranked(net.pending, 3)|, |Ranked(net.pending, 2)|, |Ranked(net.pending, 1)|, |Ranked(net.pending, 0)|
  {
    hide NetFits, Possible, Act, Rank, Ranked;
    if net.pending == {} {
      h := [];
    } else {
      var m :| m in net.pending;
      var next := HandledLeaves(net, m, held, ar);
      RankIsSmall(m.event);
      h := Drained(next, held, ar);
      h := [Handling(m)] + h;
      assert h[0] == Handling(m);
    }
  }

  lemma RankIsSmall(e: Event)
    ensures Rank(e) <= 3
  {
  }

  lemma {:induction false} Announced(net: Net, todo: set<Action>, held: set<Entry>, ar: Arity) returns (h: seq<Action>)
    requires NetFits(net, held, ar) && forall a | a in todo :: a.Announcing? && a.who < |net.nodes|
    ensures IsHistory(net, h) && forall a | a in todo :: a in h
    decreases todo
  {
    hide NetFits, Act;
    if todo == {} {
      h := [];
    } else {
      var a :| a in todo;
      ActFits(net, a, held, ar);
      h := Announced(Act(net, a).value, todo - {a}, held, ar);
      h := [a] + h;
      assert h[0] == a && h[1..] + [] == h[1..];
    }
  }

  /** From any state of the net some history is thorough. */
  lemma SomeThorough(net: Net, held: set<Entry>, ar: Arity) returns (h: seq<Action>)
    requires NetFits(net, held, ar)
    ensures Thorough(net, h, held)
  {
    hide NetFits, IsHistory, After, AllNoOlder;
    var todo := set i: nat, e | i < |net.nodes| && e in held :: Announcing(i, e.stored.date);
    var g := Announced(net, todo, held, ar);
    HistoryFits(net, g, held, ar);
    var d := Drained(After(net, g).value, held, ar);
    HistoriesJoin(net, g, d);
    h := g + d;
    forall i: nat, e | i < |net.nodes| && e in held ensures Announcing(i, e.stored.date) in h {
      assert Announcing(i, e.stored.date) in todo;
    }
  }

  lemma {:induction false} SomeThoroughHistories(net: Net, count: nat, held: set<Entry>, ar: Arity) returns (hs: seq<seq<Action>>)
    requires NetFits(net, held, ar)
    ensures AllThorough(net, hs, held) && |hs| == count
    decreases count
  {
    hide NetFits, Thorough, IsHistory, After, AllNoOlder;
    if count == 0 {
      hs := [];
    } else {
      var h := SomeThorough(net, held, ar);
      ThoroughFits(net, h, held, ar);
      hs := SomeThoroughHistories(After(net, h).value, count - 1, held, ar);
      hs := [h] + hs;
    }
  }

  lemma ThoroughFits(net: Net, h: seq<Action>, held: set<Entry>, ar: Arity)
    requires NetFits(net, held, ar) && Thorough(net, h, held)
    ensures IsHistory(net, h) && After(net, h).Some? && NetFits(After(net, h).value, held, ar)
  {
    hide NetFits, IsHistory, After, AllNoOlder;
    HistoryFits(net, h, held, ar);
  }

  /** Whatever has happened, the nodes can still be led to agree, on the newest of everything. */
  lemma NetConverges(net: Net, held: set<Entry>, ar: Arity) returns (hs: seq<seq<Action>>)
    requires NetFits(net, held, ar) && Orderly(held) && HeldSomewhere(net, held)
    ensures AllThorough(net, hs, held) && Agreed(AfterAll(net, hs, held)) && Silent(AfterAll(net, hs, held))
  {
    hide NetFits, Orderly, HeldSomewhere, AllThorough, Agreed, Silent, Left, View, Missing;
    hs := SomeThoroughHistories(net, Left(net.nodes, held), held, ar);
    ThoroughHistoriesConverge(net, hs, held, ar);
  }

  /* ---- two nodes ---- */

  ghost function EntriesIn(v: Register): set<Entry> {
    set k | k in v :: Entry(k, v[k])
  }

  /** Two compatible nodes that are not tied apart, before any message is posted. */
  lemma PairIsNet(a: NodeState, b: NodeState, all: iset<Entry>, ar: Arity)
    requires Sound(a, ar) && Sound(b, ar) && Compatible(a.db, b.db, all, ar) && !TiedApart(View(a.db), View(b.db))
    ensures var (net, held) := (Net([a, b], {}, {}), EntriesIn(View(a.db)) + EntriesIn(View(b.db)));
            NetFits(net, held, ar) && Orderly(held) && HeldSomewhere(net, held)
  {
    hide View, Valid, KnowsSigners, Coherent, Understands, Within, EntriesIn, KeysOf, AsInfinite, Orderly, HeldSomewhere, UniquelySigned,
      TiedApart;
    var v, w := View(a.db), View(b.db);
    var held := EntriesIn(v) + EntriesIn(w);
    EntriesAreWithin(v, w);
    UnderstandsLess(a.db, v.Keys + w.Keys, KeysOf(held));
    UnderstandsLess(b.db, v.Keys + w.Keys, KeysOf(held));
    PairIsOrderly(v, w, all) by { PairWithin(a, b, all, ar); }
    PairIsHeld(a, b);
  }

  lemma EntriesAreWithin(v: Register, w: Register)
    ensures var held := EntriesIn(v) + EntriesIn(w);
            && KeysOf(held) <= v.Keys + w.Keys
            && Within(v, AsInfinite(held)) && Within(w, AsInfinite(held))
  {
    assert forall k | k in v :: Entry(k, v[k]) in EntriesIn(v);
    assert forall k | k in w :: Entry(k, w[k]) in EntriesIn(w);
  }

  lemma PairWithin(a: NodeState, b: NodeState, all: iset<Entry>, ar: Arity)
    requires Compatible(a.db, b.db, all, ar)
    ensures UniquelySigned(all) && Within(View(a.db), all) && Within(View(b.db), all)
  {
    hide View, Valid, KnowsSigners, Understands, UniquelySigned, Within;
  }

  lemma PairIsOrderly(v: Register, w: Register, all: iset<Entry>)
    requires UniquelySigned(all) && Within(v, all) && Within(w, all) && !TiedApart(v, w)
    ensures Orderly(EntriesIn(v) + EntriesIn(w))
  {
    hide TiedApart, Tied;
    UntiedIsTieFree(v, w);
    var held := AsInfinite(EntriesIn(v) + EntriesIn(w));
    assert forall e | e in held :: e in HeldBy(v, w) && e in all;
  }

  lemma PairIsHeld(a: NodeState, b: NodeState)
    ensures HeldSomewhere(Net([a, b], {}, {}), EntriesIn(View(a.db)) + EntriesIn(View(b.db)))
  {
    hide View;
    var net := Net([a, b], {}, {});
    forall e | e in EntriesIn(View(a.db)) + EntriesIn(View(b.db)) ensures exists i | 0 <= i < |net.nodes| :: !Takes(View(net.nodes[i].db), e) {
      var i := if e in EntriesIn(View(a.db)) then 0 else 1;
      assert !Takes(View(net.nodes[i].db), e);
    }
  }

  /** However their messages cross, two nodes keep the later of each two opinions and open no
      new difference, nothing fails, and thorough histories lead both to their join. */
  lemma PairsConverge(a: NodeState, b: NodeState, h: seq<Action>, all: iset<Entry>, ar: Arity)
    requires Sound(a, ar) && Sound(b, ar) && Compatible(a.db, b.db, all, ar) && !TiedApart(View(a.db), View(b.db))
    requires IsHistory(Net([a, b], {}, {}), h)
    ensures var r := After(Net([a, b], {}, {}), h);
            && r.Some? && |r.value.nodes| == 2
            && var (v, w) := (View(r.value.nodes[0].db), View(r.value.nodes[1].db));
               && LaterOf(v, w) == LaterOf(View(a.db), View(b.db))
               && Differing(v, w) <= Differing(View(a.db), View(b.db))
               && (Silent(r.value) <==> v == w == LaterOf(View(a.db), View(b.db)))
  {
    hide View, Compatible, TiedApart, IsHistory, After, NetFits, Sound, Orderly, Silent, Differing, LaterOf, EntriesIn,
      AllNoOlder, HeldSomewhere, Agreed;
    PairIsNet(a, b, all, ar);
    var net, held := Net([a, b], {}, {}), EntriesIn(View(a.db)) + EntriesIn(View(b.db));
    HistoryFits(net, h, held, ar);
    var end := After(net, h).value;
    PairsKeepCount(net, end);
    SilentIsAgreed(end, held, ar);
    PairViews(net, end, held, ar);
    PairAgreed(end);
    JoinSelf(View(end.nodes[0].db));
  }

  lemma PairsKeepCount(net: Net, end: Net)
    requires AllNoOlder(net, end)
    ensures |end.nodes| == |net.nodes|
  {
  }

  lemma PairAgreed(net: Net)
    requires |net.nodes| == 2
    ensures Agreed(net) <==> View(net.nodes[0].db) == View(net.nodes[1].db)
  {
    hide View;
  }

  lemma PairViews(net: Net, end: Net, held: set<Entry>, ar: Arity)
    requires |net.nodes| == 2 && AllNoOlder(net, end) && NetFits(end, held, ar) && Orderly(held)
    requires held == EntriesIn(View(net.nodes[0].db)) + EntriesIn(View(net.nodes[1].db))
    ensures var (v, w) := (View(net.nodes[0].db), View(net.nodes[1].db));
            var (v', w') := (View(end.nodes[0].db), View(end.nodes[1].db));
            LaterOf(v', w') == LaterOf(v, w) && Differing(v', w') <= Differing(v, w)
  {
    hide View, Sound, Understands, Carries, UniquelySigned;
    assert Fits(end.nodes[0], held, ar) && Fits(end.nodes[1], held, ar);
    JoinIsKept(View(net.nodes[0].db), View(net.nodes[1].db), View(end.nodes[0].db), View(end.nodes[1].db), held);
  }

  lemma LaterIsEither(v: Register, w: Register, k: Key)
    ensures var x := LaterOf(v, w);
            && (k in x <==> k in v || k in w)
            && (k in x ==> (k in v && x[k] == v[k]) || (k in w && x[k] == w[k]))
            && (k in v ==> !Older(x[k], v[k])) && (k in w ==> !Older(x[k], w[k]))
  {
  }

  lemma HeldIsEither(v: Register, w: Register, e: Entry)
    requires e in EntriesIn(v) + EntriesIn(w)
    ensures (e.key in v && v[e.key] == e.stored) || (e.key in w && w[e.key] == e.stored)
  {
  }

  lemma JoinIsKept(v: Register, w: Register, v': Register, w': Register, held: set<Entry>)
    requires held == EntriesIn(v) + EntriesIn(w) && TieFree(AsInfinite(held))
    requires NoOlder(v, v') && NoOlder(w, w') && Within(v', AsInfinite(held)) && Within(w', AsInfinite(held))
    ensures LaterOf(v', w') == LaterOf(v, w) && Differing(v', w') <= Differing(v, w)
  {
    hide LaterOf, NoOlder, Within, TieFree, EntriesIn;
    var x, y := LaterOf(v', w'), LaterOf(v, w);
    forall k ensures (k in x <==> k in y) && (k in x ==> x[k] == y[k]) {
      KeyIsJoined(v, w, v', w', held, k);
    }
    forall k | k in Differing(v', w') ensures k in Differing(v, w) {
      KeyStaysSettled(v, w, v', w', held, k);
    }
  }

  lemma KeyIsJoined(v: Register, w: Register, v': Register, w': Register, held: set<Entry>, k: Key)
    requires held == EntriesIn(v) + EntriesIn(w) && TieFree(AsInfinite(held))
    requires NoOlder(v, v') && NoOlder(w, w') && Within(v', AsInfinite(held)) && Within(w', AsInfinite(held))
    ensures var (x, y) := (LaterOf(v', w'), LaterOf(v, w)); (k in x <==> k in y) && (k in x ==> x[k] == y[k])
  {
    hide LaterOf;
    LaterIsEither(v, w, k);
    LaterIsEither(v', w', k);
    var x, y := LaterOf(v', w'), LaterOf(v, w);
    if k in x {
      var e := Entry(k, x[k]);
      assert e in held;
      hide EntriesIn;
      HeldIsEither(v, w, e);
      assert !Older(y[k], x[k]);
      assert !Older(x[k], y[k]);
      OlderOrTied(x[k], y[k]);
    }
    if k in y { assert k in v' || k in w'; }
  }

  lemma KeyStaysSettled(v: Register, w: Register, v': Register, w': Register, held: set<Entry>, k: Key)
    requires held == EntriesIn(v) + EntriesIn(w) && k in Differing(v', w')
    requires NoOlder(v, v') && NoOlder(w, w') && Within(v', AsInfinite(held)) && Within(w', AsInfinite(held))
    ensures k in Differing(v, w)
  {
    hide Older, EntriesIn;
    if k in v' { assert Entry(k, v'[k]) in held; HeldIsEither(v, w, Entry(k, v'[k])); }
    if k in w' { assert Entry(k, w'[k]) in held; HeldIsEither(v, w, Entry(k, w'[k])); }
  }
}
