/** What a node answers to a template request: all its templates, signed anew. */
module TemplateReplies {
  import opened Entities
  import opened Options
  import opened Grammar
  import opened RoundTrip
  import opened Opinions
  import opened Tables
  import opened Store
  import opened StoreInvariants
  import opened Merging
  import opened Startup

  /** The entities of the rows named `template`; `None` where one does not parse. */
  function AllTemplates(t: Table<StatementData>): Option<seq<Entity>> {
    if t == [] then Some([])
    else if t[0].data.contents.name != "template" then AllTemplates(t[1..])
    else
      match (EntityFromText(t[0].data.contents.e1), AllTemplates(t[1..]))
      case (Ok(_, e), Some(es)) => Some([e] + es)
      case _ => None
  }

  /** The default opinion is valid for seven days, not for the thirty of a typed one. */
  function ReplyOpinion(today: U32): UnsignedOpinion {
    UnsignedOpinion(today, 7, 0, 3, "")
  }

  function SignedTemplate(e: Entity, key: KeyPair, today: U32): SignedStatement {
    var s := Statement("template", [e]);
    SignedStatement(s, [SignUsing(ReplyOpinion(today), StatementText(s), key)])
  }

  function TemplateReply(es: seq<Entity>, key: KeyPair, today: U32): seq<SignedStatement> {
    if es == [] then [] else [SignedTemplate(es[0], key, today)] + TemplateReply(es[1..], key, today)
  }

  lemma {:induction false} ReplyMembers(es: seq<Entity>, key: KeyPair, today: U32)
    ensures forall s :: s in TemplateReply(es, key, today) <==> exists e | e in es :: s == SignedTemplate(e, key, today)
  {
    hide SignedTemplate;
    if es != [] {
      ReplyMembers(es[1..], key, today);
      assert forall e :: e in es <==> e == es[0] || e in es[1..];
    }
  }

  predicate IsTemplateRow(r: Row<StatementData>, e: Entity) {
    ReadContents(r.data.contents) == Some(Statement("template", [e]))
  }

  lemma TemplateRowOf(r: Row<StatementData>)
    ensures TemplateOf(r.data).Some? ==> IsTemplateRow(r, TemplateEntity(TemplateOf(r.data).value))
  {
    hide ReadContents;
    if TemplateOf(r.data).Some? {
      var s := ReadContents(r.data.contents).value;
      assert s.entities == [s.entities[0]];
    }
  }

  lemma TemplateRowReads(d: StatementData, ar: Arity)
    requires GoodArity(ar) && Faithful(d, ar)
    ensures d.contents.name == "template" ==>
              var p := EntityFromText(d.contents.e1);
              && p.Ok? && ReadContents(d.contents) == Some(Statement("template", [p.value]))
              && Acceptable(Statement("template", [p.value]), ar)
    ensures d.contents.name != "template" ==> forall e :: ReadContents(d.contents) != Some(Statement("template", [e]))
  {
    hide ReadContents, EntityFromText, EntityText, Printable, TemplateConforms, DataOf;
    var s: Statement :| |s.entities| == ar(s.name) > 0 && Acceptable(s, ar) && d == DataOf(s);
    FaithfulReads(s, ar);
    ContentsOfData(s);
    if s.name == "template" {
      assert s.entities[0] in s.entities && s.entities == [s.entities[0]];
      EntityRoundTrip(s.entities[0]);
    }
  }

  /** On valid tables the list never fails, and holds exactly the entities of the template
      rows, all of them acceptable in a statement of their own. */
  lemma {:induction false} TemplatesAreListed(t: Table<StatementData>, ar: Arity)
    requires GoodArity(ar) && forall r | r in t :: Faithful(r.data, ar)
    ensures var l := AllTemplates(t);
            && l.Some?
            && (forall e :: e in l.value <==> exists r | r in t :: IsTemplateRow(r, e))
            && (forall e | e in l.value :: Acceptable(Statement("template", [e]), ar))
  {
    hide EntityFromText, ReadContents, Faithful, Acceptable;
    if t != [] {
      TemplatesAreListed(t[1..], ar);
      TemplateRowReads(t[0].data, ar);
      assert forall r :: r in t <==> r == t[0] || r in t[1..];
      var l := AllTemplates(t).value;
      if t[0].data.contents.name == "template" {
        assert IsTemplateRow(t[0], l[0]) && l[1..] == AllTemplates(t[1..]).value;
        assert forall e :: e in l <==> e == l[0] || e in l[1..];
      }
    }
  }

  /** Nothing in the answer is refused by a peer. */
  lemma ReplyIsAcceptable(es: seq<Entity>, key: KeyPair, today: U32, ar: Arity)
    requires Printable(Signer(key.public))
    requires forall e | e in es :: Acceptable(Statement("template", [e]), ar)
    ensures forall s | s in TemplateReply(es, key, today) :: AcceptableSigned(s, ar)
  {
    hide Acceptable, Printable, StatementText;
    ReplyMembers(es, key, today);
  }
}
