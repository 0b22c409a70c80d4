/** The handlers of two nodes, message by message, run the rounds that converge. */
module Sessions {
  import opened Options
  import opened Store
  import opened StoreInvariants
  import opened Registers
  import opened Views
  import opened Merging
  import opened Listing
  import opened Summaries
  import opened SummaryMeaning
  import opened Protocol
  import opened Convergence
  import opened Node

  /** `to` sends the requests for these names to `from` and takes each reply. */
  function Served(from: NodeState, to: NodeState, names: seq<string>, date: nat): Option<(NodeState, NodeState)>
    decreases |names|
  {
    if names == [] then Some((from, to))
    else
      match Step(from, Request(names[0], date))
      case Some((from', Reply(list))) =>
        (match Step(to, Response(list))
         case None => None
         case Some((to', _)) => Served(from', to', names[1..], date))
      case _ => None
  }

  /** What `to` asks for when `from` announces a date, with the states the two are then in. */
  function Asked(from: NodeState, to: NodeState, date: nat): Option<(NodeState, NodeState, set<string>)> {
    match Step(from, Announce(date))
    case Some((from', Infos(infos))) =>
      (match Step(to, Announcement(infos))
       case Some((to', Requests(names, _))) => Some((from', to', names))
       case _ => None)
    case _ => None
  }

  /** The whole exchange after an announcement, the requests going out in the order of `names`. */
  function CatchUp(from: NodeState, to: NodeState, names: seq<string>, date: nat): Option<(NodeState, NodeState)> {
    match Asked(from, to, date)
    case None => None
    case Some((from', to', _)) => Served(from', to', names, date)
  }

  /** `names` lists what an announcement of `date` makes `to` ask for. */
  ghost predicate Asks(from: NodeState, to: NodeState, names: seq<string>, date: nat) {
    Asked(from, to, date).Some? && Lists(names, Asked(from, to, date).value.2)
  }

  /** Sound nodes announce and compare what their tables say. */
  lemma AskedIsRequested(from: NodeState, to: NodeState, date: nat)
    requires Coherent(from) && Coherent(to)
    ensures var r := Asked(from, to, date);
            && r.Some? && r.value.0.db == from.db && r.value.1.db == to.db
            && r.value.2 == Requested(GetSyncInfos(to.db, date), GetSyncInfos(from.db, date))
            && Coherent(r.value.0) && Coherent(r.value.1)
  {
    hide Requested, GetSyncInfos;
    DatedInfos(from.db, date);
    assert OwnInfos(from, date).1 == GetSyncInfos(from.db, date);
    assert OwnInfos(to, date).1 == GetSyncInfos(to.db, date);
  }

  lemma {:induction false} ServedDelivers(from: NodeState, to: NodeState, names: seq<string>, date: nat, ar: Arity)
    requires GoodArity(ar) && Sound(from, ar) && Sound(to, ar) && Understands(to.db, View(from.db).Keys)
    ensures var r := Served(from, to, names, date);
            && r.Some? && r.value.0 == from && Sound(r.value.1, ar)
            && r.value.1.db == DeliverAll(from.db, to.db, names, date).0
    decreases |names|
  {
    hide View, Valid, KnowsSigners, Coherent, ListNamed, Merge, Understands, TemplateStored, AcceptableSigned,
      StatementsGrown;
    if names != [] {
      ValidHasTables(from.db, ar);
      DeliverPuts(from.db, to.db, names[0], date, ar);
      ReplyCarries(from.db, names[0], date, ar);
      var list := ListNamed(from.db, names[0], date).value;
      StepIsSound(to, Response(list), ar);
      var to' := Step(to, Response(list)).value.0;
      UnderstandsMore(to.db, to'.db, View(from.db).Keys, View(from.db).Keys);
      ServedDelivers(from, to', names[1..], date, ar);
    }
  }

  lemma CatchUpDelivers(from: NodeState, to: NodeState, names: seq<string>, date: nat, all: iset<Entry>, ar: Arity)
    requires Sound(from, ar) && Sound(to, ar) && Compatible(from.db, to.db, all, ar)
    ensures var r := CatchUp(from, to, names, date);
            && r.Some? && Sound(r.value.0, ar) && Sound(r.value.1, ar)
            && r.value.0.db == from.db && r.value.1.db == DeliverAll(from.db, to.db, names, date).0
  {
    hide View, Valid, KnowsSigners, Coherent, Understands, Within, UniquelySigned, Asked, DeliverAll, Requested,
      GetSyncInfos;
    AskedIsRequested(from, to, date);
    UnderstandsLess(to.db, View(from.db).Keys + View(to.db).Keys, View(from.db).Keys);
    var a := Asked(from, to, date).value;
    ServedDelivers(a.0, a.1, names, date, ar);
  }

  /* ---- sessions ---- */

  /** Both directions, one after the other. */
  function Exchange(a: NodeState, b: NodeState, r: Round): Option<(NodeState, NodeState)> {
    match CatchUp(a, b, r.byB, r.date)
    case None => None
    case Some((a1, b1)) =>
      match CatchUp(b1, a1, r.byA, r.date)
      case None => None
      case Some((b2, a2)) => Some((a2, b2))
  }

  ghost predicate IsExchange(a: NodeState, b: NodeState, r: Round) {
    && Asks(a, b, r.byB, r.date)
    && var mid := CatchUp(a, b, r.byB, r.date);
       mid.Some? && Asks(mid.value.1, mid.value.0, r.byA, r.date)
  }

  /** Message by message two sound nodes do exactly what a round of their stores is. */
  lemma ExchangeIsRound(a: NodeState, b: NodeState, r: Round, all: iset<Entry>, ar: Arity)
    requires Sound(a, ar) && Sound(b, ar) && Compatible(a.db, b.db, all, ar)
    ensures IsExchange(a, b, r) <==> IsRound(a.db, b.db, r)
    ensures var end := Exchange(a, b, r);
            && end.Some? && (end.value.0.db, end.value.1.db) == RoundEnd(a.db, b.db, r)
            && Sound(end.value.0, ar) && Sound(end.value.1, ar)
  {
    hide View, Valid, KnowsSigners, Coherent, Asked, CatchUp, DeliverAll, Requested, GetSyncInfos, Carried,
      OnNameAndDate, PutAll, Compatible;
    AskedIsRequested(a, b, r.date);
    CatchUpDelivers(a, b, r.byB, r.date, all, ar);
    var (a1, b1) := CatchUp(a, b, r.byB, r.date).value;
    ExchangePuts(a.db, b.db, r.byB, r.date, all, ar);
    CompatibleTurns(a1.db, b1.db, all, ar);
    AskedIsRequested(b1, a1, r.date);
    CatchUpDelivers(b1, a1, r.byA, r.date, all, ar);
  }

  /** Exchanges one after the other, each on the highest date that still differs. */
  ghost predicate IsSession(a: NodeState, b: NodeState, rounds: seq<Round>)
    decreases |rounds|
  {
    rounds != [] ==>
      && IsExchange(a, b, rounds[0])
      && TopDate(View(a.db), View(b.db), rounds[0].date)
      && var end := Exchange(a, b, rounds[0]);
         end.Some? && IsSession(end.value.0, end.value.1, rounds[1..])
  }

  function SessionEnd(a: NodeState, b: NodeState, rounds: seq<Round>): Option<(NodeState, NodeState)>
    decreases |rounds|
  {
    if rounds == [] then Some((a, b))
    else
      match Exchange(a, b, rounds[0])
      case None => None
      case Some((a', b')) => SessionEnd(a', b', rounds[1..])
  }

  /** Any exchanges of two sound nodes are rounds of their stores; none of them fails. */
  lemma {:induction false} SessionIsRun(a: NodeState, b: NodeState, rounds: seq<Round>, all: iset<Entry>, ar: Arity)
    requires Sound(a, ar) && Sound(b, ar) && Compatible(a.db, b.db, all, ar)
    ensures IsSession(a, b, rounds) <==> IsRun(a.db, b.db, rounds)
    ensures var end := SessionEnd(a, b, rounds);
            && end.Some? && (end.value.0.db, end.value.1.db) == RunEnd(a.db, b.db, rounds)
            && Sound(end.value.0, ar) && Sound(end.value.1, ar)
            && Compatible(end.value.0.db, end.value.1.db, all, ar)
    decreases |rounds|
  {
    hide View, Sound, IsExchange, IsRound, Exchange, RoundEnd, TopDate, Compatible;
    if rounds != [] {
      ExchangeIsRound(a, b, rounds[0], all, ar);
      RoundIsPossible(a.db, b.db, rounds[0], all, ar);
      var (a1, b1) := Exchange(a, b, rounds[0]).value;
      SessionIsRun(a1, b1, rounds[1..], all, ar);
    }
  }

  /** Two sound nodes that are not tied apart converge. No message of a session fails; a
      session has at most as many exchanges as there were differing keys; it can go on exactly
      as long as the stores differ; and when they no longer do, both hold the later opinion of
      every signer on every statement. */
  lemma SessionsConverge(a: NodeState, b: NodeState, rounds: seq<Round>, all: iset<Entry>, ar: Arity)
    requires Sound(a, ar) && Sound(b, ar) && Compatible(a.db, b.db, all, ar) && IsSession(a, b, rounds)
    requires !TiedApart(View(a.db), View(b.db))
    ensures |rounds| <= |Differing(View(a.db), View(b.db))|
    ensures SessionEnd(a, b, rounds).Some?
    ensures var (a', b') := SessionEnd(a, b, rounds).value;
            && (View(a'.db) != View(b'.db) <==> exists r :: IsExchange(a', b', r) && TopDate(View(a'.db), View(b'.db), r.date))
            && (View(a'.db) == View(b'.db) ==> View(a'.db) == LaterOf(View(a.db), View(b.db)))
  {
    hide View, Sound, IsExchange, IsRound, TopDate, LaterOf, Differing, Compatible, TiedApart, IsRun, RunEnd, SessionEnd,
      IsSession;
    SessionIsRun(a, b, rounds, all, ar);
    RunsConverge(a.db, b.db, all, ar);
    var (a', b') := SessionEnd(a, b, rounds).value;
    forall r ensures IsExchange(a', b', r) <==> IsRound(a'.db, b'.db, r) {
      ExchangeIsRound(a', b', r, all, ar);
    }
  }

  /** The two nodes hold the same opinions after these exchanges, whatever dates and names
      they were about. */
  ghost predicate AgreeAfter(a: NodeState, b: NodeState, rounds: seq<Round>) {
    var end := SessionEnd(a, b, rounds);
    end.Some? && View(end.value.0.db) == View(end.value.1.db)
  }

  /** Message by message, two sound nodes can come to agree if and only if they are not tied
      apart. If they are, every sequence of exchanges leaves a date on which the next
      announcements still cause requests. */
  lemma NodesAgreeWithoutTies(a: NodeState, b: NodeState, all: iset<Entry>, ar: Arity)
    requires Sound(a, ar) && Sound(b, ar) && Compatible(a.db, b.db, all, ar)
    ensures (exists rounds :: AgreeAfter(a, b, rounds)) <==> !TiedApart(View(a.db), View(b.db))
    ensures TiedApart(View(a.db), View(b.db)) ==>
              forall rounds ::
                && SessionEnd(a, b, rounds).Some?
                && var (a', b') := SessionEnd(a, b, rounds).value;
                   exists date: nat :: Unsettled(a'.db, b'.db, date)
  {
    hide View, Sound, Compatible, TiedApart, SessionEnd, IsSession, RunEnd, Unsettled, IsRun, LaterOf;
    if TiedApart(View(a.db), View(b.db)) {
      forall rounds
        ensures SessionEnd(a, b, rounds).Some? && !AgreeAfter(a, b, rounds)
        ensures var (a', b') := SessionEnd(a, b, rounds).value; exists date: nat :: Unsettled(a'.db, b'.db, date)
      {
        SessionIsRun(a, b, rounds, all, ar);
        TiedNeverAgree(a.db, b.db, rounds, all, ar);
      }
    } else {
      var rounds := SomeRunConverges(a.db, b.db, all, ar);
      SessionIsRun(a, b, rounds, all, ar);
      assert AgreeAfter(a, b, rounds);
    }
  }

  /** As many exchanges on the then highest differing date as there were differing keys are
      enough, whatever exchanges lie between. */
  lemma EnoughExchangesConverge(a: NodeState, b: NodeState, rounds: seq<Round>, all: iset<Entry>, ar: Arity)
    requires Sound(a, ar) && Sound(b, ar) && Compatible(a.db, b.db, all, ar)
    requires !TiedApart(View(a.db), View(b.db))
    requires TopRounds(a.db, b.db, rounds) >= |Differing(View(a.db), View(b.db))|
    ensures SessionEnd(a, b, rounds).Some?
    ensures var (a', b') := SessionEnd(a, b, rounds).value;
            View(a'.db) == View(b'.db) == LaterOf(View(a.db), View(b.db))
  {
    hide View, Sound, Compatible, Paired, TiedApart, SessionEnd, IsSession, RunEnd, IsRun, LaterOf, Differing, TopRounds;
    SessionIsRun(a, b, rounds, all, ar);
    var held := UntiedIsPaired(a.db, b.db, all, ar);
    EnoughRoundsConverge(a.db, b.db, rounds, held, ar);
  }
}
