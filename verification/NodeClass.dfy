/** The handlers of a node, changing storage and summaries in place. Each is proved against
    the step it stands for. */
module NodeClass {
  import opened Entities
  import opened Options
  import opened Opinions
  import opened Tables
  import opened Store
  import opened Listing
  import opened Summaries
  import opened SummaryMeaning
  import opened Protocol
  import opened Startup
  import opened TemplateReplies
  import opened StorageClass
  import opened Node

  datatype OpinionRequest = OpinionRequest(name: string, date: nat)

  /** A node's own guess about its synchronization state. */
  class SyncState {
    var ownInfos: map<nat, SyncInfos>
    const storage: Storage

    function State(): NodeState
      reads this, storage
    {
      NodeState(storage.State(), ownInfos, storage.ownKey)
    }

    constructor (storage: Storage)
      ensures this.storage == storage && ownInfos == map[]
    {
      this.storage := storage;
      ownInfos := map[];
    }

    method UpdateOwnInfos(date: nat) returns (infos: SyncInfos)
      modifies this
      ensures infos == Summaries.GetSyncInfos(storage.State(), date)
      ensures ownInfos == old(ownInfos)[date := infos]
    {
      infos := storage.GetSyncInfos(date);
      ownInfos := ownInfos[infos.date := infos];
    }

    method GetOwnInfos(date: nat) returns (infos: SyncInfos)
      modifies this
      ensures (State(), infos) == OwnInfos(old(State()), date)
    {
      if date in ownInfos {
        infos := ownInfos[date];
      } else {
        infos := UpdateOwnInfos(date);
      }
    }

    /** The names for which we want data from the peer that sent `infos`, each once. */
    method AddInfos(infos: SyncInfos) returns (names: seq<string>)
      modifies this
      ensures State() == OwnInfos(old(State()), infos.date).0
      ensures Elements(names) == Requested(OwnInfos(old(State()), infos.date).1, infos)
      ensures NoRepeats(names)
    {
      var own := GetOwnInfos(infos.date);
      ghost var updated := State();
      names := [];
      var left := infos.infos.Keys;
      while left != {}
        invariant State() == updated && left <= infos.infos.Keys
        invariant Elements(names) == Requested(own, infos) - left
        invariant NoRepeats(names)
        decreases left
      {
        var key :| key in left;
        assert key !in names by { assert key !in Elements(names); }
        if key in own.infos {
          if SuggestsUpdate(own.infos[key], infos.infos[key]) {
            NoRepeatsSnoc(names, key);
            names := names + [key];
          }
        } else {
          NoRepeatsSnoc(names, key);
          names := names + [key];
        }
        left := left - {key};
      }
    }

    method FlushOwnInfos()
      modifies this
      ensures ownInfos == map[]
    {
      ownInfos := map[];
    }
  }

  lemma {:induction false} NoRepeatsSnoc<T>(s: seq<T>, x: T)
    requires NoRepeats(s) && x !in s
    ensures NoRepeats(s + [x]) && Elements(s + [x]) == Elements(s) + {x}
  {
    if s != [] {
      NoRepeatsSnoc(s[1..], x);
      assert (s + [x])[1..] == s[1..] + [x];
    }
  }

  class ReputationNet {
    const storage: Storage
    const syncState: SyncState

    ghost predicate Connected()
      reads syncState
    {
      syncState.storage == storage
    }

    function State(): NodeState
      reads storage, syncState
    {
      NodeState(storage.State(), syncState.ownInfos, storage.ownKey)
    }

    constructor (storage: Storage)
      ensures this.storage == storage && Connected() && fresh(syncState)
      ensures State() == NodeState(storage.State(), map[], storage.ownKey)
    {
      this.storage := storage;
      syncState := new SyncState(storage);
    }

    /** While the cached summaries are right, what is announced is what the tables give. */
    method AnnounceInfos(date: nat) returns (infos: SyncInfos)
      requires Connected()
      modifies syncState
      ensures Step(old(State()), Announce(date)) == Some((State(), Infos(infos)))
      ensures Coherent(old(State())) ==> infos == GetSyncInfos(storage.State(), date) && Coherent(State())
    {
      infos := syncState.GetOwnInfos(date);
    }

    method HandleAnnouncement(infos: SyncInfos) returns (posted: seq<OpinionRequest>)
      requires Connected()
      modifies syncState
      ensures NoRepeats(posted) && forall p | p in posted :: p.date == infos.date
      ensures Step(old(State()), Announcement(infos)) ==
              Some((State(), Requests(set p | p in posted :: p.name, infos.date)))
    {
      var names := syncState.AddInfos(infos);
      posted := [];
      for k := 0 to |names|
        invariant |posted| == k && forall j | 0 <= j < k :: posted[j] == OpinionRequest(names[j], infos.date)
      {
        posted := posted + [OpinionRequest(names[k], infos.date)];
      }
      PostedAre(names, posted, infos.date);
    }

    /** `ok` is false where the source panics. */
    method HandleBroadcast(signed: SignedStatement) returns (ok: bool)
      requires Connected()
      modifies storage, syncState
      ensures var next := Step(old(State()), Broadcast(signed));
              && (ok <==> next.Some?) && (ok ==> next == Some((State(), Nothing)))
    {
      hide PersistStatement, Store.PersistOpinion;
      ghost var (db1, r) := PersistStatement(storage.State(), signed.statement);
      var result := storage.Persist(signed.statement);
      assert (storage.State(), result) == (db1, r);
      match result {
        case Done(p) =>
          assert PersistSigned(old(storage.State()), signed) == PersistOpinions(db1, signed.opinions, p.id);
          ok := PersistEach(signed.opinions, p.id);
          if ok {
            syncState.FlushOwnInfos();
          }
        case NoTemplate =>
          ok := true;
        case Panicked =>
          ok := false;
      }
    }

    /** The loop over the opinions of one statement. */
    method PersistEach(os: seq<Opinion>, id: nat) returns (ok: bool)
      modifies storage`statements, storage`templates, storage`signers, storage`opinions
      ensures var (db, r) := PersistOpinions(old(storage.State()), os, id);
              (ok <==> r.Done?) && (ok ==> storage.State() == db) && (!ok ==> r.Panicked?)
    {
      hide Store.PersistOpinion;
      for k := 0 to |os|
        invariant PersistOpinions(storage.State(), os[k..], id) == PersistOpinions(old(storage.State()), os, id)
      {
        assert os[k..][1..] == os[k + 1..];
        var r := storage.PersistOpinion(os[k], id);
        if !r.Done? {
          return false;
        }
      }
      assert os[|os|..] == [];
      return true;
    }

    /** `ok` is false where the source panics. */
    method HandleInput(s: Statement, today: U32) returns (ok: bool)
      requires Connected()
      modifies storage
      ensures var next := Typed(old(State()), s, today);
              (ok <==> next.Some?) && (ok ==> next == Some(State()))
    {
      hide PersistHashing, Store.PersistOpinion, StatementText;
      var key := storage.ownKey.key;
      ghost var (db1, r) := PersistHashing(storage.State(), s);
      var result := storage.PersistStatementHashingEmails(s);
      assert (storage.State(), result) == (db1, r);
      match result {
        case Done(p) =>
          var o := SignUsing(DefaultOpinion(today), StatementText(p.data), key);
          var signed := storage.PersistOpinion(o, p.id);
          ok := signed.Done?;
        case NoTemplate =>
          ok := true;
        case Panicked =>
          ok := false;
      }
    }

    /** A new connection always asks the peer for its templates. */
    method HandleConnectionEstablished() returns (posted: Output)
      requires Connected()
      ensures Step(State(), Event.Connected) == Some((State(), posted))
    {
      posted := TemplatesRequested;
    }

    /** Every template, signed anew with today's date; `None` where the source panics. */
    method HandleTemplateRequest(today: U32) returns (reply: Option<seq<SignedStatement>>)
      requires Connected()
      ensures match reply
              case Some(list) => Step(State(), TemplateRequest(today)) == Some((State(), Reply(list)))
              case None => Step(State(), TemplateRequest(today)) == None
    {
      hide AllTemplates, SignUsing;
      var entities := storage.ListAllTemplates();
      if entities.None? {
        return None;
      }
      var es, key := entities.value, storage.ownKey.key;
      var statements: seq<SignedStatement> := [];
      for k := 0 to |es|
        invariant statements + TemplateReply(es[k..], key, today) == TemplateReply(es, key, today)
      {
        var statement := Statement("template", [es[k]]);
        var opinion := SignUsing(ReplyOpinion(today), StatementText(statement), key);
        assert es[k..][1..] == es[k + 1..];
        assert TemplateReply(es[k..], key, today) == [SignedStatement(statement, [opinion])] + TemplateReply(es[k + 1..], key, today);
        statements := statements + [SignedStatement(statement, [opinion])];
      }
      assert statements + [] == statements;
      return Some(statements);
    }

    method HandleRequest(name: string, date: nat) returns (reply: Option<seq<SignedStatement>>)
      requires Connected() && Increasing(storage.statements)
      ensures match reply
              case Some(list) => Step(State(), Request(name, date)) == Some((State(), Reply(list)))
              case None => Step(State(), Request(name, date)) == None
    {
      hide AllTemplates, TemplateReply, PersistSigned, Merge, Requested, GetSyncInfos, ListNamed;
      reply := storage.ListStatementsNamedSigned(name, date);
    }

    /** `ok` is false where the source panics. */
    method HandleResponse(list: seq<SignedStatement>) returns (ok: bool)
      requires Connected()
      modifies storage, syncState
      ensures var next := Step(old(State()), Response(list));
              && (ok <==> next.Some?) && (ok ==> next == Some((State(), Nothing)))
    {
      hide PersistStatement, Store.PersistOpinion, PersistOpinions;
      for k := 0 to |list|
        invariant syncState.ownInfos == old(syncState.ownInfos) && storage.ownKey == old(storage.ownKey)
        invariant Merge(storage.State(), list[k..]) == Merge(old(storage.State()), list)
      {
        assert list[k..][0] == list[k] && list[k..][1..] == list[k + 1..];
        var r := storage.Persist(list[k].statement);
        if !r.Done? {
          return false;
        }
        var each := PersistEach(list[k].opinions, r.value.id);
        if !each {
          return false;
        }
      }
      assert list[|list|..] == [];
      syncState.FlushOwnInfos();
      return true;
    }
  }

  lemma PostedAre(names: seq<string>, posted: seq<OpinionRequest>, date: nat)
    requires |posted| == |names| && forall j | 0 <= j < |names| :: posted[j] == OpinionRequest(names[j], date)
    requires NoRepeats(names)
    ensures NoRepeats(posted) && (set p | p in posted :: p.name) == Elements(names)
    decreases |names|
  {
    if names != [] {
      PostedAre(names[1..], posted[1..], date);
    }
    forall n | n in names ensures n in set p | p in posted :: p.name {
      var j :| 0 <= j < |names| && names[j] == n;
      assert posted[j] in posted;
    }
  }
}
