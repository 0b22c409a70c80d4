/** Synchronizing two nodes: what an announcement makes a node request, what the replies
    change, and that both nodes end with the later opinion of every signer. */
module Protocol {
  import opened Entities
  import opened RoundTrip
  import opened Opinions
  import opened Store
  import opened StoreInvariants
  import opened Registers
  import opened Views
  import opened Merging
  import opened Listing
  import opened Summaries
  import opened SummaryMeaning

  /** The names a node wants data for after an announcement. */
  function Requested(own: SyncInfos, other: SyncInfos): set<string> {
    set n | n in other.infos && (n !in own.infos || SuggestsUpdate(own.infos[n], other.infos[n]))
  }

  /** Whether a node with view `own` requests a name of a date that `other` announces. */
  predicate Wants(own: Register, other: Register, name: string, date: nat) {
    var mine, theirs := SignaturesOn(own, name, date), SignaturesOn(other, name, date);
    |mine| < |theirs| || (|mine| == |theirs| && mine != theirs)
  }

  /** Summaries decide requests as the views behind them would. */
  lemma RequestMeans(own: Db, other: Db, name: string, date: nat, ar: Arity)
    requires GoodArity(ar) && ValidTables(own, ar) && ValidTables(other, ar)
    requires DistinctIn(View(own)) && DistinctIn(View(other))
    ensures name in Requested(GetSyncInfos(own, date), GetSyncInfos(other, date)) <==> Wants(View(own), View(other), name, date)
  {
    hide View, ValidTables, GetSyncInfos, SignaturesOn, DistinctIn;
    var s := InfoMeans(own, name, date, ar);
    var t := InfoMeans(other, name, date, ar);
    if Elements(s) == Elements(t) { SortedListIsUnique(s, t); }
  }

  /** The two views hold the same opinions of a date. */
  ghost predicate SameOn(a: Register, b: Register, date: nat) {
    forall k :: (k in a && a[k].date == date) || (k in b && b[k].date == date) ==> k in a && k in b && a[k] == b[k]
  }

  /** Under distinct signatures, equal signatures are equal opinions. */
  lemma SignaturesAreOpinions(a: Register, b: Register, date: nat, all: iset<Entry>)
    requires UniquelySigned(all) && Within(a, all) && Within(b, all)
    ensures SameOn(a, b, date) <==> forall n: string :: SignaturesOn(a, n, date) == SignaturesOn(b, n, date)
  {
    if SameOn(a, b, date) {
      forall n: string ensures SignaturesOn(a, n, date) == SignaturesOn(b, n, date) {
        assert KeysOn(a, n, date) == KeysOn(b, n, date);
        assert forall k | k in KeysOn(a, n, date) :: a[k] == b[k];
      }
    }
    if forall n: string :: SignaturesOn(a, n, date) == SignaturesOn(b, n, date) {
      forall k | k in a && a[k].date == date ensures k in b && a[k] == b[k] {
        SignatureIsHeld(a, b, k, date, all);
      }
      forall k | k in b && b[k].date == date ensures k in a && a[k] == b[k] {
        SignatureIsHeld(b, a, k, date, all);
      }
    }
  }

  lemma SignatureIsHeld(a: Register, b: Register, k: Key, date: nat, all: iset<Entry>)
    requires UniquelySigned(all) && Within(a, all) && Within(b, all)
    requires k in a && a[k].date == date
    requires SignaturesOn(a, k.statement.name, date) == SignaturesOn(b, k.statement.name, date)
    ensures k in b && a[k] == b[k]
  {
    var n := k.statement.name;
    assert k in KeysOn(a, n, date);
    assert a[k].signature in SignaturesOn(b, n, date);
    var l :| l in KeysOn(b, n, date) && b[l].signature == a[k].signature;
    assert Entry(k, a[k]) in all && Entry(l, b[l]) in all;
  }

  /** Announcing a date both ways causes no request exactly when both nodes hold the same
      opinions of that date. */
  lemma QuiescenceIsAgreement(a: Db, b: Db, date: nat, all: iset<Entry>, ar: Arity)
    requires GoodArity(ar) && ValidTables(a, ar) && ValidTables(b, ar)
    requires UniquelySigned(all) && Within(View(a), all) && Within(View(b), all)
    ensures var (x, y) := (GetSyncInfos(a, date), GetSyncInfos(b, date));
            Requested(x, y) == {} && Requested(y, x) == {} <==> SameOn(View(a), View(b), date)
  {
    hide View, ValidTables, GetSyncInfos, SignaturesOn, Requested, UniquelySigned, Within, SameOn;
    SignedIsDistinct(View(a), all);
    SignedIsDistinct(View(b), all);
    var x, y := GetSyncInfos(a, date), GetSyncInfos(b, date);
    forall n: string
      ensures n !in Requested(x, y) && n !in Requested(y, x) <==> SignaturesOn(View(a), n, date) == SignaturesOn(View(b), n, date)
    {
      RequestMeans(a, b, n, date, ar);
      RequestMeans(b, a, n, date, ar);
    }
    SignaturesAreOpinions(View(a), View(b), date, all);
    if SameOn(View(a), View(b), date) {
      assert forall n: string :: n !in Requested(x, y) && n !in Requested(y, x);
    }
  }

  /** No request on any date means equal views, and the other way round. */
  lemma QuiescenceEverywhere(a: Db, b: Db, all: iset<Entry>, ar: Arity)
    requires GoodArity(ar) && ValidTables(a, ar) && ValidTables(b, ar)
    requires UniquelySigned(all) && Within(View(a), all) && Within(View(b), all)
    ensures (forall date: nat :: Requested(GetSyncInfos(a, date), GetSyncInfos(b, date)) == {}
                              && Requested(GetSyncInfos(b, date), GetSyncInfos(a, date)) == {})
            <==> View(a) == View(b)
  {
    hide View, ValidTables, GetSyncInfos, Requested, UniquelySigned, Within;
    forall date: nat
      ensures Requested(GetSyncInfos(a, date), GetSyncInfos(b, date)) == {} && Requested(GetSyncInfos(b, date), GetSyncInfos(a, date)) == {}
              <==> SameOn(View(a), View(b), date)
    {
      QuiescenceIsAgreement(a, b, date, all, ar);
    }
    SameEverywhere(View(a), View(b));
  }

  lemma SameEverywhere(a: Register, b: Register)
    ensures (forall date: nat :: SameOn(a, b, date)) <==> a == b
  {
    if forall date: nat :: SameOn(a, b, date) {
      forall k | k in a ensures k in b && a[k] == b[k] { assert SameOn(a, b, a[k].date); }
      forall k | k in b ensures k in a && a[k] == b[k] { assert SameOn(a, b, b[k].date); }
      assert a.Keys == b.Keys;
    }
  }

  /* ---- progress, seen without ids ---- */

  /** The views agree on every date after this one, and differ on it. */
  ghost predicate TopDate(a: Register, b: Register, date: nat) {
    !SameOn(a, b, date) && forall later: nat | later > date :: SameOn(a, b, later)
  }

  lemma KeysOnSize(v: Register, name: string, date: nat)
    requires DistinctIn(v)
    ensures |SignaturesOn(v, name, date)| == |KeysOn(v, name, date)|
  {
    SignatureCount(v, KeysOn(v, name, date));
  }

  lemma SignaturesWithout(v: Register, keys: set<Key>, k: Key)
    requires DistinctIn(v) && keys <= v.Keys && k in keys
    ensures v[k].signature !in set l | l in keys - {k} :: v[l].signature
    ensures (set l | l in keys :: v[l].signature) == (set l | l in keys - {k} :: v[l].signature) + {v[k].signature}
  {
  }

  lemma {:induction false} SignatureCount(v: Register, keys: set<Key>)
    requires DistinctIn(v) && keys <= v.Keys
    ensures |set k | k in keys :: v[k].signature| == |keys|
  {
    if keys == {} {
      assert (set l | l in keys :: v[l].signature) == {};
    } else {
      var k :| k in keys;
      SignatureCount(v, keys - {k});
      SignaturesWithout(v, keys, k);
    }
  }

  lemma SubsetSize<T>(x: set<T>, y: set<T>)
    requires x <= y
    ensures |x| <= |y|
    ensures |x| == |y| ==> x == y
  {
    assert y == x + (y - x);
    assert |y| == |x| + |y - x|;
  }

  lemma EqualHoldings(a: Register, b: Register, name: string, date: nat)
    requires KeysOn(a, name, date) == KeysOn(b, name, date)
    requires forall k | k in KeysOn(a, name, date) :: a[k] == b[k]
    ensures SignaturesOn(a, name, date) == SignaturesOn(b, name, date)
  {
  }

  lemma OtherKeyIsTaken(own: Register, other: Register, name: string, date: nat, k: Key)
    requires forall later: nat | later > date :: SameOn(own, other, later)
    requires k in KeysOn(other, name, date) && k !in KeysOn(own, name, date)
    ensures OnNameAndDate(other, Entry(k, other[k]), name, date) && Takes(own, Entry(k, other[k]))
  {
    if k in own { assert own[k].date > date ==> SameOn(own, other, own[k].date); }
  }

  lemma SharedKeyIsTaken(own: Register, other: Register, name: string, date: nat, k: Key, all: iset<Entry>)
    requires TieFree(all) && Within(own, all) && Within(other, all)
    requires k in KeysOn(own, name, date) && k in KeysOn(other, name, date) && own[k] != other[k]
    ensures OnNameAndDate(own, Entry(k, own[k]), name, date) && OnNameAndDate(other, Entry(k, other[k]), name, date)
    ensures Takes(own, Entry(k, other[k])) || Takes(other, Entry(k, own[k]))
  {
    assert Entry(k, own[k]) in all && Entry(k, other[k]) in all;
  }

  /** At the highest differing date a request is productive, or the counts were equal and the
      request the other way is. */
  lemma RequestIsProductive(own: Register, other: Register, name: string, date: nat, all: iset<Entry>) returns (e: Entry)
    requires TieFree(all) && UniquelySigned(all) && Within(own, all) && Within(other, all)
    requires forall later: nat | later > date :: SameOn(own, other, later)
    requires Wants(own, other, name, date)
    ensures (OnNameAndDate(other, e, name, date) && Takes(own, e))
         || (Wants(other, own, name, date) && OnNameAndDate(own, e, name, date) && Takes(other, e))
  {
    var mine, theirs := KeysOn(own, name, date), KeysOn(other, name, date);
    assert mine <= own.Keys && theirs <= other.Keys;
    hide KeysOn, SignaturesOn, OnNameAndDate, Takes, SameOn, Within, DistinctIn, TieFree;
    SignedIsDistinct(own, all);
    SignedIsDistinct(other, all);
    KeysOnSize(own, name, date);
    KeysOnSize(other, name, date);
    if k :| k in theirs && k !in mine {
      OtherKeyIsTaken(own, other, name, date, k);
      e := Entry(k, other[k]);
    } else {
      SubsetSize(theirs, mine);
      assert theirs == mine;
      if forall k | k in mine :: own[k] == other[k] { EqualHoldings(own, other, name, date); }
      var k :| k in mine && own[k] != other[k];
      SharedKeyIsTaken(own, other, name, date, k, all);
      e := if Takes(own, Entry(k, other[k])) then Entry(k, other[k]) else Entry(k, own[k]);
    }
  }

  lemma SomeRequest(a: Register, b: Register, date: nat, all: iset<Entry>) returns (name: string)
    requires UniquelySigned(all) && Within(a, all) && Within(b, all)
    requires !SameOn(a, b, date)
    ensures Wants(a, b, name, date) || Wants(b, a, name, date)
  {
    hide SignaturesOn, SameOn, UniquelySigned, Within;
    SignaturesAreOpinions(a, b, date, all);
    name :| SignaturesOn(a, name, date) != SignaturesOn(b, name, date);
  }

  /** Entries none of which is newer than what is held change nothing. */
  lemma {:induction false} NothingTaken(b: Register, es: seq<Entry>)
    requires forall e | e in es :: !Takes(b, e)
    ensures PutAll(b, es) == b
    decreases |es|
  {
    if es != [] {
      assert !Takes(b, es[0]);
      NothingTaken(b, es[1..]);
    }
  }

  /* ---- exchanges between stores ---- */

  /** Every statement of the view has a stored template here. */
  ghost predicate Understands(db: Db, keys: set<Key>) {
    forall k, s: Statement | k in keys && s.entities != [] && AllPrintable(s.entities) && ContentsOf(s) == k.statement ::
      TemplateStored(db, s)
  }

  /** Two nodes that can take each other's statements, holding uniquely signed opinions. */
  ghost predicate Compatible(a: Db, b: Db, all: iset<Entry>, ar: Arity) {
    && GoodArity(ar) && UniquelySigned(all)
    && Valid(a, ar) && Valid(b, ar) && KnowsSigners(a) && KnowsSigners(b)
    && Within(View(a), all) && Within(View(b), all)
    && Understands(a, View(a).Keys + View(b).Keys) && Understands(b, View(a).Keys + View(b).Keys)
  }

  /** Such nodes among opinions none of which tie. */
  ghost predicate Paired(a: Db, b: Db, all: iset<Entry>, ar: Arity) {
    Compatible(a, b, all, ar) && TieFree(all)
  }

  /** One request and its reply. */
  function Deliver(from: Db, to: Db, name: string, date: nat): (Db, Outcome<()>) {
    match ListNamed(from, name, date)
    case None => (to, Panicked)
    case Some(reply) => Merge(to, reply)
  }

  /** The replies to several requests, arriving in this order. */
  function DeliverAll(from: Db, to: Db, names: seq<string>, date: nat): (Db, Outcome<()>)
    decreases |names|
  {
    if names == [] then (to, Done(()))
    else
      var (to1, r) := Deliver(from, to, names[0], date);
      if r.Done? then DeliverAll(from, to1, names[1..], date) else (to1, r)
  }

  /** The entries these replies carry. */
  ghost function Carried(from: Db, names: seq<string>, date: nat): seq<Entry> {
    if names == [] then []
    else (match ListNamed(from, names[0], date) case Some(reply) => Entries(reply) case None => [])
         + Carried(from, names[1..], date)
  }

  lemma {:induction false} EntriesAboutStatement(c: Contents, os: seq<Opinion>)
    requires os != []
    ensures EntriesOfOpinions(c, os) != [] && EntriesOfOpinions(c, os)[0].key.statement == c
  {
  }

  /** Everything in a reply is understood by whoever understands the sender's view. */
  lemma ReplyUnderstood(from: Db, to: Db, name: string, date: nat, ar: Arity)
    requires GoodArity(ar) && ValidTables(from, ar) && Understands(to, View(from).Keys)
    ensures ListNamed(from, name, date).Some?
    ensures forall s | s in ListNamed(from, name, date).value :: TemplateStored(to, s.statement)
  {
    hide View, ValidTables, ListNamed, TemplateStored, Printable, TemplateConforms, AcceptableOpinion;
    ReplyCarries(from, name, date, ar);
    var reply := ListNamed(from, name, date).value;
    forall s | s in reply ensures TemplateStored(to, s.statement) {
      assert AcceptableSigned(s, ar);
      EntriesAboutStatement(ContentsOf(s.statement), s.opinions);
      var e := EntriesOf(s)[0];
      EntryInEntries(reply, s, e);
      assert OnNameAndDate(View(from), e, name, date);
    }
  }

  lemma UnderstandsMore(db: Db, db': Db, keys: set<Key>, fewer: set<Key>)
    requires StatementsGrown(db, db') && Understands(db, keys) && fewer <= keys
    ensures Understands(db', fewer)
  {
    hide TemplateStored, StatementsGrown, ContentsOf;
    KnowledgeStays(db, db');
  }

  lemma DeliverPuts(from: Db, to: Db, name: string, date: nat, ar: Arity)
    requires GoodArity(ar) && ValidTables(from, ar) && Valid(to, ar) && KnowsSigners(to)
    requires Understands(to, View(from).Keys)
    ensures ListNamed(from, name, date).Some?
    ensures var (to', r) := Deliver(from, to, name, date);
            && r.Done? && Valid(to', ar) && StatementsGrown(to, to')
            && View(to') == PutAll(View(to), Entries(ListNamed(from, name, date).value))
  {
    hide View, Valid, ValidTables, ListNamed, TemplateStored, AcceptableSigned, Merge, Entries, KnowsSigners;
    ReplyUnderstood(from, to, name, date, ar);
    ReplyCarries(from, name, date, ar);
    MergePuts(to, ListNamed(from, name, date).value, ar);
  }

  /** All replies together write, and write only, what they carry. */
  lemma {:induction false} DeliverAllPuts(from: Db, to: Db, names: seq<string>, date: nat, ar: Arity)
    requires GoodArity(ar) && ValidTables(from, ar) && Valid(to, ar) && KnowsSigners(to)
    requires Understands(to, View(from).Keys)
    ensures var (to', r) := DeliverAll(from, to, names, date);
            && r.Done? && Valid(to', ar) && StatementsGrown(to, to')
            && View(to') == PutAll(View(to), Carried(from, names, date))
    ensures forall e :: e in Carried(from, names, date) <==> exists n | n in names :: OnNameAndDate(View(from), e, n, date)
    decreases |names|
  {
    hide View, Valid, ValidTables, ListNamed, TemplateStored, Deliver, Entries, KnowsSigners, Understands,
      OnNameAndDate, StatementsGrown, AcceptableSigned, Put;
    if names == [] {
      NothingGrown(to);
    } else {
      var n := names[0];
      DeliverPuts(from, to, n, date, ar);
      ReplyCarries(from, n, date, ar);
      var to1 := Deliver(from, to, n, date).0;
      UnderstandsMore(to, to1, View(from).Keys, View(from).Keys);
      KnowledgeStays(to, to1);
      DeliverAllPuts(from, to1, names[1..], date, ar);
      GrownIsTransitive(to, to1, DeliverAll(from, to, names, date).0);
      PutAllSplit(View(to), Entries(ListNamed(from, n, date).value), Carried(from, names[1..], date));
      assert forall m :: m in names <==> m == n || m in names[1..];
    }
  }
}
