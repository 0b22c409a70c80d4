/** Signatures over the network and through the tables. */
module Signatures {
  import opened Entities
  import opened Opinions
  import opened Tables
  import opened Store
  import opened StoreInvariants
  import opened Registers
  import opened Views
  import opened Merging
  import opened Listing
  import opened RoundTrip
  import opened Startup
  import opened StartupProofs
  import opened TemplateReplies
  import opened Node

  /** Whether a signature is one of this key for this text: some fixed but arbitrary relation. */
  const VERIFIES: (PublicKey, string, Base64Text) -> bool

  predicate VerifySignature(o: Opinion, statementText: string) {
    VERIFIES(o.signer, SignableText(o.data, statementText), o.signature)
  }

  predicate VerifySignatures(s: SignedStatement) {
    s.opinions != [] && forall o | o in s.opinions :: VerifySignature(o, StatementText(s.statement))
  }

  /** A stored opinion verifies for the statement its key names, without a comment. */
  predicate EntryVerifies(e: Entry) {
    match ReadContents(e.key.statement)
    case None => false
    case Some(s) => VerifySignature(OpinionWith(e.key.signer, e.stored), StatementText(s))
  }

  function EntryFor(s: Statement, o: Opinion): Entry
    requires s.entities != []
  {
    Entry(Key(ContentsOf(s), o.signer), StoredOf(o.data, o.signature))
  }

  /** The comment column is not written: an opinion comes back from the tables as it was
      exactly when its comment is empty, and then its signature is as good as before. */
  lemma StoredVerdict(s: Statement, o: Opinion)
    requires IsReadable(s)
    ensures OpinionWith(o.signer, StoredOf(o.data, o.signature)) == o <==> o.data.comment == ""
    ensures o.data.comment == "" ==> (EntryVerifies(EntryFor(s, o)) <==> VerifySignature(o, StatementText(s)))
  {
    hide StatementText, ReadContents, SignableText;
  }

  lemma {:induction false} CommentsAreEmpty(t: Table<StatementData>, os: Table<OpinionData>)
    ensures OpinionsOf(t, os).Some? ==> forall o | o in OpinionsOf(t, os).value :: o.data.comment == ""
  {
    hide ReadContents;
    if os != [] { CommentsAreEmpty(t, os[1..]); }
  }

  lemma {:induction false} NoCommentIsSent(t: Table<StatementData>, gs: seq<Group>)
    ensures AllSigned(t, gs).Some? ==>
              forall s, o | s in AllSigned(t, gs).value && o in s.opinions :: o.data.comment == ""
  {
    hide ReadContents, OpinionsOf;
    if gs != [] {
      NoCommentIsSent(t, gs[1..]);
      CommentsAreEmpty(t, gs[0].opinions);
    }
  }

  lemma {:induction false} OpinionEntries(c: Contents, os: seq<Opinion>)
    ensures forall e :: e in EntriesOfOpinions(c, os) <==>
              exists o | o in os :: e == Entry(Key(c, o.signer), StoredOf(o.data, o.signature))
  {
    if os != [] {
      OpinionEntries(c, os[1..]);
      assert forall o :: o in os <==> o == os[0] || o in os[1..];
    }
  }

  lemma {:induction false} FromEntries(list: seq<SignedStatement>, e: Entry) returns (s: SignedStatement)
    requires e in Entries(list)
    ensures s in list && e in EntriesOf(s)
  {
    hide EntriesOf;
    if e in EntriesOf(list[0]) {
      s := list[0];
    } else {
      s := FromEntries(list[1..], e);
    }
  }

  /** Every statement of a reply has good signatures exactly when every stored opinion that
      the reply carries verifies. */
  lemma RepliesVerify(db: Db, name: string, date: nat, ar: Arity)
    requires GoodArity(ar) && ValidTables(db, ar)
    ensures ListNamed(db, name, date).Some?
    ensures (forall s | s in ListNamed(db, name, date).value :: VerifySignatures(s)) <==>
              (forall e | OnNameAndDate(View(db), e, name, date) :: EntryVerifies(e))
  {
    hide View, ValidTables, AllSigned, Groups, AcceptableSigned, OnNameAndDate, EntryVerifies, Entries,
      IsReadable, VerifySignature, StatementText;
    ReplyCarries(db, name, date, ar);
    var reply := ListNamed(db, name, date).value;
    NoCommentIsSent(db.statements, Groups(db.statements, db.opinions, name, date));
    forall s, o | s in reply && o in s.opinions
      ensures s.statement.entities != [] && EntryFor(s.statement, o) in Entries(reply)
      ensures EntryVerifies(EntryFor(s.statement, o)) <==> VerifySignature(o, StatementText(s.statement))
    {
      ReadableHasEntities(s.statement);
      StoredVerdict(s.statement, o);
      OpinionEntries(ContentsOf(s.statement), s.opinions);
      EntryInEntries(reply, s, EntryFor(s.statement, o));
    }
    if forall s | s in reply :: VerifySignatures(s) {
      forall e | OnNameAndDate(View(db), e, name, date) ensures EntryVerifies(e) {
        var s := FromEntries(reply, e);
        ReadableHasEntities(s.statement);
        OpinionEntries(ContentsOf(s.statement), s.opinions);
        var o :| o in s.opinions && e == EntryFor(s.statement, o);
      }
    }
  }

  lemma ReadableHasEntities(s: Statement)
    requires IsReadable(s)
    ensures s.entities != []
  {
  }

  /* ---- what this node signs ---- */

  /** The key's own signatures verify, whatever the text. */
  ghost predicate SignsWell(key: KeyPair) {
    forall text: string :: VERIFIES(key.public, text, SIGN(key, text))
  }

  /** Signing covers the opinion's text followed by the statement's, which is what verifying
      looks at. */
  lemma SignedVerifies(d: UnsignedOpinion, statementText: string, key: KeyPair)
    requires SignsWell(key)
    ensures var o := SignUsing(d, statementText, key);
            && o.data == d && o.signer == key.public
            && VERIFIES(o.signer, UnsignedText(o.data) + statementText, o.signature)
            && VerifySignature(o, statementText)
  {
    hide UnsignedText;
    assert VERIFIES(key.public, SignableText(d, statementText), SIGN(key, SignableText(d, statementText)));
  }

  /** Everything in an answer to a template request verifies. */
  lemma AnswersVerify(es: seq<Entity>, key: KeyPair, today: U32)
    requires SignsWell(key)
    ensures forall s | s in TemplateReply(es, key, today) :: VerifySignatures(s)
  {
    hide SignUsing, VerifySignature, StatementText;
    ReplyMembers(es, key, today);
    forall s | s in TemplateReply(es, key, today) ensures VerifySignatures(s) {
      var e :| e in es && s == SignedTemplate(e, key, today);
      SignedVerifies(ReplyOpinion(today), StatementText(s.statement), key);
    }
  }

  /** What signing a statement that reads back stores verifies. */
  lemma StoredSignatureVerifies(s: Statement, d: UnsignedOpinion, key: KeyPair)
    requires SignsWell(key) && IsReadable(s) && d.comment == ""
    ensures EntryVerifies(EntryFor(s, SignUsing(d, StatementText(s), key)))
  {
    hide SignUsing, VerifySignature, StatementText, EntryVerifies, ContentsOf, ReadContents;
    SignedVerifies(d, StatementText(s), key);
    StoredVerdict(s, SignUsing(d, StatementText(s), key));
  }

  /** The own opinions of a start verify. */
  lemma OwnOpinionsVerify(t: Template, key: KeyPair, today: U32)
    requires SignsWell(key) && IsRoot(t)
    ensures EntryVerifies(OwnEntry(t, key, today))
  {
    hide SignUsing, StatementText, EntryVerifies, ContentsOf, ReadContents, Printable;
    var s := TemplateStatement(t);
    assert Printable(TemplateEntity(t)) by { RootPrints(t); }
    RowReadsBack(s);
    StoredSignatureVerifies(s, DefaultOpinion(today), key);
    assert SignUsing(DefaultOpinion(today), StatementText(s), key).signer == key.public by {
      SignedVerifies(DefaultOpinion(today), StatementText(s), key);
    }
  }

  lemma RootPrints(t: Template)
    requires IsRoot(t)
    ensures Printable(TemplateEntity(t))
  {
  }

  /** And so does the opinion on what is typed. */
  lemma TypedOpinionVerifies(n: NodeState, s: Statement, today: U32)
    requires SignsWell(n.own.key) && s.entities != [] && IsReadable(StoredForm(n, s))
    ensures EntryVerifies(TypedEntry(n, s, today))
  {
    hide SignUsing, StatementText, EntryVerifies, ContentsOf, ReadContents, StoredForm;
    FormHasEntities(n, s);
    StoredSignatureVerifies(StoredForm(n, s), DefaultOpinion(today), n.own.key);
  }
}
