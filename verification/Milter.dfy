/** The milter: the statements found for what a mail session mentions add up to a verdict. */
module Milter {
  import opened Entities
  import opened Options
  import opened Grammar
  import opened RoundTrip
  import opened LookupKeys
  import opened Tables
  import opened Store
  import opened StoreInvariants
  import opened Listing
  import opened Lookup
  import opened StorageClass

  datatype Location =
    | InConnect | InHelo | InMailFrom | InRcptTo | InReceived | InFrom | InReplyTo | InSender

  datatype Severity = NoSeverity | Quarantine | Tempfail | Reject | Known

  function Rank(s: Severity): nat {
    match s
    case NoSeverity => 0
    case Quarantine => 1
    case Tempfail => 2
    case Reject => 3
    case Known => 4
  }

  function Max(a: Severity, b: Severity): Severity {
    if Rank(a) < Rank(b) then b else a
  }

  function SeverityOf(s: Statement): Severity {
    if s.name == "spammer" || s.name == "exploited" then Reject
    else if s.name == "spammer_friendly" || s.name == "dynamic" then Tempfail
    else if s.name == "known" then Known
    else NoSeverity
  }

  datatype Match = Match(location: Location, entity: Entity, statement: Statement)

  /** The accumulator as a value. */
  datatype Policy = Policy(matches: seq<Match>, macros: map<string, string>, severity: Severity)

  const START := Policy([], map[], NoSeverity)

  /* ---- reasons ---- */

  function LocationReason(l: Location): string {
    match l
    case InConnect => "CONNECT"
    case InHelo => "HELO"
    case InMailFrom => "MAIL FROM"
    case InRcptTo => "RCPT TO"
    case InReceived => "\"Received:\" header"
    case InFrom => "\"From:\" header"
    case InReplyTo => "\"Reply-To:\" header"
    case InSender => "\"Sender:\" header"
  }

  /** Text the grammar accepts holds nothing that quoting would escape. */
  function Quoted(s: string): string {
    "\"" + s + "\""
  }

  function EntityReason(e: Entity): string {
    match e
    case Domain(s) => "domain " + Quoted(s)
    case EMail(s) => "address " + Quoted(s)
    case AS(n) => "autonomous system AS" + Decimal(n)
    case IPv4(c) => (if c.length == 32 then "IP address " else "IP range ") + Ipv4Text(c)
    case IPv6(c) => (if c.length == 128 then "IPv6 address " else "IPv6 range ") + Ipv6Text(c)
    case Signer(k) => "signer " + KeyText(k)
    case Url(s) => "URL " + Quoted(s)
    case HashValue(s) => "hash value " + Quoted(s)
    case TemplateEntity(t) => "template " + TemplateText(t)
  }

  function StatementReason(s: Statement): string
    requires s.entities != []
  {
    EntityText(s.entities[0]) + " ("
      + (if s.name == "spammer" then "reported as spam source"
         else if s.name == "spammer_friendly" then "listed as spammer-friendly"
         else if s.name == "dynamic" then "listed as dynamic/anonymous network range"
         else s.name)
      + ")"
  }

  function MatchReason(m: Match): string
    requires m.statement.entities != []
  {
    LocationReason(m.location) + ": "
      + (if m.entity == m.statement.entities[0] then "" else EntityReason(m.entity) + " matches ")
      + StatementReason(m.statement)
  }

  /** The reason names the first match of the accumulated severity. */
  function Reason(ms: seq<Match>, severity: Severity): string
    requires HaveEntities(ms)
  {
    if ms == [] then ""
    else if SeverityOf(ms[0].statement) == severity then MatchReason(ms[0])
    else Reason(ms[1..], severity)
  }

  predicate HaveEntities(ms: seq<Match>) {
    forall m | m in ms :: m.statement.entities != []
  }

  /* ---- lookups ---- */

  lemma ParsedAddress(what: string)
    ensures var p := EntityFromText(what);
            p.Ok? && p.value.EMail? ==> '@' in p.value.address
  {
    hide ParseEntity;
    if ParseEntity(what).Ok? {
      ParsedIsPrintable(what);
    }
  }

  function MatchesWith(location: Location, e: Entity, rows: seq<Row<Statement>>): seq<Match> {
    seq(|rows|, k requires 0 <= k < |rows| => Match(location, e, rows[k].data))
  }

  /** What one lookup adds: nothing for text that is no entity; `None` is a panic. */
  function Found(t: Table<StatementData>, location: Location, what: string): Option<seq<Match>> {
    ParsedAddress(what);
    match EntityFromText(what)
    case Err => Some([])
    case Panic => None
    case Ok(_, e) =>
      match ConvertRows(FindAbout(t, e))
      case None => None
      case Some(rows) => Some(MatchesWith(location, e, rows))
  }

  function FoundAll(t: Table<StatementData>, lookups: seq<(Location, string)>): Option<seq<Match>> {
    if lookups == [] then Some([])
    else
      match (Found(t, lookups[0].0, lookups[0].1), FoundAll(t, lookups[1..]))
      case (Some(ms), Some(rest)) => Some(ms + rest)
      case _ => None
  }

  function Top(s: Severity, ms: seq<Match>): Severity
    decreases |ms|
  {
    if ms == [] then s else Top(Max(s, SeverityOf(ms[0].statement)), ms[1..])
  }

  function Add(p: Policy, ms: seq<Match>): Policy {
    p.(matches := p.matches + ms, severity := Top(p.severity, ms))
  }

  /* ---- commands ---- */

  datatype HeaderKind = Received | From | ReplyTo | Sender | OtherHeader

  /** A header comes with the addresses the mail and pattern libraries find in it. */
  datatype Command =
    | Optneg(version: nat, quarantine: bool)
    | Macro(pairs: seq<(string, string)>)
    | Connect(hostname: string, address: string)
    | Helo(name: string)
    | Mail(sender: string)
    | Rcpt
    | Header(kind: HeaderKind, texts: seq<string>)
    | Eoh
    | Body
    | BodyEob
    | Quit
    | Abort
    | Disconnect
    | Data
    | Unknown

  datatype Response =
    | Negotiated(version: nat, quarantine: bool)
    | Accept
    | Continue
    | Quarantined(reason: string)
    | Replycode(code: nat, reason: string)

  datatype Reply = Silent | Send(response: Response) | Closed

  const MILTER_VERSION := 6

  function StripBrackets(s: string): string {
    if s != "" && s[0] == '<' && s[|s| - 1] == '>' then s[1..|s| - 1] else s
  }

  function Located(location: Location, texts: seq<string>): seq<(Location, string)> {
    seq(|texts|, k requires 0 <= k < |texts| => (location, texts[k]))
  }

  function LookupsOf(c: Command): seq<(Location, string)> {
    match c
    case Connect(hostname, address) => [(InConnect, hostname), (InConnect, address)]
    case Helo(name) => [(InHelo, StripBrackets(name))]
    case Mail(sender) => [(InMailFrom, StripBrackets(sender))]
    case Header(Received, texts) => Located(InReceived, texts)
    case Header(From, texts) => Located(InFrom, texts)
    case Header(ReplyTo, texts) => Located(InReplyTo, texts)
    case Header(Sender, texts) => Located(InSender, texts)
    case _ => []
  }

  function Macros(m: map<string, string>, pairs: seq<(string, string)>): map<string, string>
    decreases |pairs|
  {
    if pairs == [] then m else Macros(m[pairs[0].0 := pairs[0].1], pairs[1..])
  }

  function Verdict(p: Policy): Response
    requires HaveEntities(p.matches)
  {
    match p.severity
    case Known => Accept
    case Reject => Replycode(554, Reason(p.matches, p.severity))
    case NoSeverity => Continue
    case Quarantine => Quarantined(Reason(p.matches, p.severity))
    case Tempfail => Replycode(457, Reason(p.matches, p.severity))
  }

  /** One command against the statements stored at the time; `None` is a panic. */
  function Step(p: Policy, t: Table<StatementData>, c: Command): Option<(Policy, Reply)>
    requires HaveEntities(p.matches)
  {
    match c
    case Optneg(version, quarantine) =>
      Some((START, Send(Negotiated(if version < MILTER_VERSION then version else MILTER_VERSION, quarantine))))
    case Macro(pairs) => Some((p.(macros := Macros(p.macros, pairs)), Silent))
    case Rcpt => Some((p, Send(Verdict(p))))
    case Eoh => Some((p, Send(Verdict(p))))
    case BodyEob => Some((START, Send(Continue)))
    case Quit => Some((p, Closed))
    case Abort => Some((START, Silent))
    case _ =>
      match FoundAll(t, LookupsOf(c))
      case None => None
      case Some(ms) => Some((Add(p, ms), Send(Continue)))
  }

  /* ---- what is found has entities ---- */

  lemma {:induction false} ConvertedHaveEntities(rows: Table<StatementData>)
    ensures ConvertRows(rows).Some? ==> forall r | r in ConvertRows(rows).value :: r.data.entities != []
  {
    hide EntityFromText;
    if rows != [] { ConvertedHaveEntities(rows[1..]); }
  }

  lemma FoundHaveEntities(t: Table<StatementData>, location: Location, what: string)
    ensures Found(t, location, what).Some? ==> HaveEntities(Found(t, location, what).value)
  {
    hide EntityFromText, ConvertRows, FindAbout;
    ParsedAddress(what);
    if EntityFromText(what).Ok? {
      ConvertedHaveEntities(FindAbout(t, EntityFromText(what).value));
    }
  }

  lemma {:induction false} AllFoundHaveEntities(t: Table<StatementData>, lookups: seq<(Location, string)>)
    ensures FoundAll(t, lookups).Some? ==> HaveEntities(FoundAll(t, lookups).value)
  {
    hide Found;
    if lookups != [] {
      FoundHaveEntities(t, lookups[0].0, lookups[0].1);
      AllFoundHaveEntities(t, lookups[1..]);
    }
  }

  /* ---- the greatest severity ---- */

  /** `s` bounds the severities of the matches and, unless it is the least, is one. */
  ghost predicate IsTop(s: Severity, ms: seq<Match>) {
    && (forall m | m in ms :: Rank(SeverityOf(m.statement)) <= Rank(s))
    && (s != NoSeverity ==> exists m | m in ms :: SeverityOf(m.statement) == s)
  }

  lemma {:induction false} TopIsTop(seen: seq<Match>, s: Severity, ms: seq<Match>)
    requires IsTop(s, seen)
    ensures IsTop(Top(s, ms), seen + ms)
    decreases |ms|
  {
    if ms == [] {
      assert seen + ms == seen;
    } else {
      assert seen + ms == seen + [ms[0]] + ms[1..];
      TopIsTop(seen + [ms[0]], Max(s, SeverityOf(ms[0].statement)), ms[1..]) by {
        assert ms[0] in seen + [ms[0]];
        assert forall m | m in seen :: m in seen + [ms[0]];
      }
    }
  }

  /** The matches alone decide the severity, in whatever order they came. */
  lemma TopIsUnique(s: Severity, r: Severity, ms: seq<Match>, ns: seq<Match>)
    requires IsTop(s, ms) && IsTop(r, ns) && forall m :: m in ms <==> m in ns
    ensures s == r
  {
    assert Rank(s) <= Rank(r) && Rank(r) <= Rank(s);
  }

  /* ---- runs ---- */

  /** A command, and the statements stored when it arrives. */
  datatype Event = Event(table: Table<StatementData>, command: Command)

  ghost predicate Sane(p: Policy) {
    HaveEntities(p.matches) && IsTop(p.severity, p.matches)
  }

  lemma StepIsSane(p: Policy, t: Table<StatementData>, c: Command)
    requires Sane(p)
    ensures Step(p, t, c).Some? ==> Sane(Step(p, t, c).value.0)
  {
    hide FoundAll, Reason, Macros;
    AllFoundHaveEntities(t, LookupsOf(c));
    if FoundAll(t, LookupsOf(c)).Some? {
      TopIsTop(p.matches, p.severity, FoundAll(t, LookupsOf(c)).value);
    }
  }

  function Run(es: seq<Event>): (p: Option<Policy>)
    ensures p.Some? ==> Sane(p.value)
  {
    if es == [] then Some(START)
    else
      var last := es[|es| - 1];
      match Run(es[..|es| - 1])
      case None => None
      case Some(p) =>
        StepIsSane(p, last.table, last.command);
        match Step(p, last.table, last.command)
        case None => None
        case Some((p', _)) => Some(p')
  }

  predicate Resets(c: Command) {
    c.Optneg? || c.BodyEob? || c.Abort?
  }

  /** Everything found since the last negotiation, end of a message or abort. */
  function MatchesSince(es: seq<Event>): seq<Match> {
    if es == [] then []
    else
      var last := es[|es| - 1];
      if Resets(last.command) then []
      else
        MatchesSince(es[..|es| - 1]) +
        match FoundAll(last.table, LookupsOf(last.command))
        case Some(ms) => ms
        case None => []
  }

  lemma {:induction false} RunCollects(es: seq<Event>)
    ensures Run(es).Some? ==> Run(es).value.matches == MatchesSince(es)
  {
    hide FoundAll, Reason, Macros, Top, HaveEntities, IsTop, Located;
    if es != [] {
      var last := es[|es| - 1];
      RunCollects(es[..|es| - 1]);
      assert FoundAll(last.table, []) == Some([]) by { NoLookups(last.table); }
      if Run(es).Some? {
        var p := Run(es[..|es| - 1]).value;
        assert p.matches + [] == p.matches;
      }
    }
  }

  lemma NoLookups(t: Table<StatementData>)
    ensures FoundAll(t, []) == Some([])
  {
  }

  /** What the mail client's text becomes: a pair of brackets around it is taken off. */
  predicate IsUnbracketed(text: string, what: string) {
    text == "<" + what + ">" || (what == text && !(text != "" && text[0] == '<' && text[|text| - 1] == '>'))
  }

  /** The command mentions this text at this place of the mail. */
  predicate Mentions(c: Command, location: Location, what: string) {
    || (location == InConnect && c.Connect? && (what == c.hostname || what == c.address))
    || (location == InHelo && c.Helo? && IsUnbracketed(c.name, what))
    || (location == InMailFrom && c.Mail? && IsUnbracketed(c.sender, what))
    || (location == InReceived && c.Header? && c.kind == Received && what in c.texts)
    || (location == InFrom && c.Header? && c.kind == From && what in c.texts)
    || (location == InReplyTo && c.Header? && c.kind == ReplyTo && what in c.texts)
    || (location == InSender && c.Header? && c.kind == Sender && what in c.texts)
  }

  /** The text reads as the entity, and the statement is found about it. */
  ghost predicate IsFound(t: Table<StatementData>, what: string, e: Entity, s: Statement) {
    && EntityFromText(what) == Ok("", e) && (e.EMail? ==> '@' in e.address)
    && exists r | r in FindAbout(t, e) :: ReadContents(r.data.contents) == Some(s)
  }

  ghost predicate Finds(e: Event, m: Match) {
    exists what :: Mentions(e.command, m.location, what) && IsFound(e.table, what, m.entity, m.statement)
  }

  lemma MentionedIsLookedUp(c: Command, location: Location, what: string)
    ensures (location, what) in LookupsOf(c) <==> Mentions(c, location, what)
  {
    match c
    case Helo(name) => BracketsComeOff(name, what);
    case Mail(sender) => BracketsComeOff(sender, what);
    case Header(Received, texts) => InLocated(InReceived, texts, location, what);
    case Header(From, texts) => InLocated(InFrom, texts, location, what);
    case Header(ReplyTo, texts) => InLocated(InReplyTo, texts, location, what);
    case Header(Sender, texts) => InLocated(InSender, texts, location, what);
    case _ =>
  }

  lemma BracketsComeOff(text: string, what: string)
    ensures what == StripBrackets(text) <==> IsUnbracketed(text, what)
  {
    if text == "<" + what + ">" {
      assert text[1..|text| - 1] == what;
    }
    if text != "" && text[0] == '<' && text[|text| - 1] == '>' {
      assert text == "<" + text[1..|text| - 1] + ">";
    }
  }

  lemma InLocated(at: Location, texts: seq<string>, location: Location, what: string)
    ensures (location, what) in Located(at, texts) <==> location == at && what in texts
  {
    var ls := Located(at, texts);
    if location == at && what in texts {
      var k :| 0 <= k < |texts| && texts[k] == what;
      assert ls[k] == (location, what);
    }
  }

  lemma FoundMeans(t: Table<StatementData>, location: Location, what: string, m: Match)
    requires Found(t, location, what).Some?
    ensures m in Found(t, location, what).value <==> m.location == location && IsFound(t, what, m.entity, m.statement)
  {
    hide ParseEntity, ReadContents, FindAbout;
    ParsedAddress(what);
    if EntityFromText(what).Ok? {
      var e := EntityFromText(what).value;
      var rows := FindAbout(t, e);
      ConvertRowsShape(rows);
      var ms := Found(t, location, what).value;
      if m.location == location && IsFound(t, what, m.entity, m.statement) {
        var r :| r in rows && ReadContents(r.data.contents) == Some(m.statement);
        var k :| 0 <= k < |rows| && rows[k] == r;
        assert ms[k] == m;
      }
    }
  }

  lemma {:induction false} FoundAllMeans(t: Table<StatementData>, lookups: seq<(Location, string)>, m: Match)
    requires FoundAll(t, lookups).Some?
    ensures m in FoundAll(t, lookups).value <==>
              exists l | l in lookups :: m.location == l.0 && IsFound(t, l.1, m.entity, m.statement)
  {
    hide Found, IsFound;
    if lookups != [] {
      FoundMeans(t, lookups[0].0, lookups[0].1, m);
      FoundAllMeans(t, lookups[1..], m);
      assert forall l :: l in lookups <==> l == lookups[0] || l in lookups[1..];
    }
  }

  lemma CommandFinds(e: Event, m: Match)
    requires FoundAll(e.table, LookupsOf(e.command)).Some?
    ensures m in FoundAll(e.table, LookupsOf(e.command)).value <==> Finds(e, m)
  {
    hide LookupsOf, FoundAll, IsFound, Mentions;
    FoundAllMeans(e.table, LookupsOf(e.command), m);
    forall what ensures (m.location, what) in LookupsOf(e.command) <==> Mentions(e.command, m.location, what) {
      MentionedIsLookedUp(e.command, m.location, what);
    }
    if l :| l in LookupsOf(e.command) && m.location == l.0 && IsFound(e.table, l.1, m.entity, m.statement) {
      assert l == (m.location, l.1);
    }
  }

  /** Some command since the last reset finds it. */
  ghost predicate FoundSince(es: seq<Event>, m: Match) {
    exists k | 0 <= k < |es| && Since(es, k) :: Finds(es[k], m)
  }

  predicate Since(es: seq<Event>, k: nat) {
    forall j | k <= j < |es| :: !Resets(es[j].command)
  }

  /** The matches of a run: whatever some command since the last reset mentions, and has a
      statement about it in the tables of that moment. */
  lemma {:induction false} MatchesMean(es: seq<Event>, m: Match)
    requires Run(es).Some?
    ensures m in MatchesSince(es) <==> FoundSince(es, m)
  {
    hide FoundAll, Finds, Resets, LookupsOf, FoundSince, Run;
    if es == [] {
      assert !FoundSince(es, m) by { NothingFound(m); }
    } else {
      var last := es[|es| - 1];
      LastIsFound(es);
      MatchesMean(es[..|es| - 1], m);
      FoundSinceLast(es, m);
      if !Resets(last.command) { CommandFinds(last, m); }
    }
  }

  lemma NothingFound(m: Match)
    ensures !FoundSince([], m)
  {
  }

  lemma FoundSinceLast(es: seq<Event>, m: Match)
    requires es != []
    ensures var n := |es| - 1;
            FoundSince(es, m) <==> !Resets(es[n].command) && (FoundSince(es[..n], m) || Finds(es[n], m))
  {
    hide Finds, Since;
    var n := |es| - 1;
    var before := es[..n];
    forall k | 0 <= k < n ensures before[k] == es[k] && (Since(es, k) <==> !Resets(es[n].command) && Since(before, k)) {
      SinceLast(es, k);
    }
    SinceLast(es, n);
    if k :| 0 <= k < |es| && Since(es, k) && Finds(es[k], m) {
      assert k < n ==> Since(before, k) && Finds(before[k], m);
    }
    if !Resets(es[n].command) && FoundSince(before, m) {
      var k :| 0 <= k < n && Since(before, k) && Finds(before[k], m);
      assert Since(es, k) && Finds(es[k], m);
    }
  }

  lemma SinceLast(es: seq<Event>, k: nat)
    requires k < |es|
    ensures var n := |es| - 1; Since(es, k) <==> !Resets(es[n].command) && (k == n || Since(es[..n], k))
  {
    hide Resets;
    var n := |es| - 1;
    if Since(es, k) {
      assert forall j | k <= j < n :: es[..n][j] == es[j];
    }
    if !Resets(es[n].command) && k < n && Since(es[..n], k) {
      assert forall j | k <= j < n :: es[j] == es[..n][j];
    }
  }

  /** The lookups of the last command went well. */
  lemma LastIsFound(es: seq<Event>)
    requires es != [] && Run(es).Some?
    ensures Run(es[..|es| - 1]).Some?
    ensures var last := es[|es| - 1]; FoundAll(last.table, LookupsOf(last.command)).Some?
  {
    hide FoundAll, Found, Add, Verdict, Macros, Located, HaveEntities;
    var last := es[|es| - 1];
    NoLookups(last.table);
  }

  /** Some match has a statement of one of these names. */
  predicate Named(ms: seq<Match>, names: set<string>) {
    exists m | m in ms :: m.statement.name in names
  }

  /** `r` is the reason of the first match with one of these names. */
  ghost predicate IsFirstReason(ms: seq<Match>, names: set<string>, r: string) {
    exists k | 0 <= k < |ms| ::
      && ms[k].statement.name in names
      && (forall j | 0 <= j < k :: ms[j].statement.name !in names)
      && ms[k].statement.entities != []
      && r == MatchReason(ms[k])
  }

  lemma {:induction false} ReasonIsFirst(ms: seq<Match>, s: Severity, names: set<string>)
    requires HaveEntities(ms) && Named(ms, names)
    requires forall m | m in ms :: SeverityOf(m.statement) == s <==> m.statement.name in names
    ensures IsFirstReason(ms, names, Reason(ms, s))
  {
    hide MatchReason, SeverityOf;
    assert ms[0] in ms;
    if ms[0].statement.name !in names {
      ReasonIsFirst(ms[1..], s, names);
      var k :| 0 <= k < |ms[1..]| && ms[1..][k].statement.name in names
               && (forall j | 0 <= j < k :: ms[1..][j].statement.name !in names)
               && ms[1..][k].statement.entities != [] && Reason(ms[1..], s) == MatchReason(ms[1..][k]);
      assert ms[k + 1] == ms[1..][k];
      forall j | 0 <= j < k + 1 ensures ms[j].statement.name !in names {
        assert j > 0 ==> ms[j] == ms[1..][j - 1];
      }
    }
  }

  lemma ReasonsAreTexts(m: Match)
    requires m.statement.entities != []
    ensures MatchReason(m) != ""
  {
    hide EntityReason, StatementReason;
    assert |LocationReason(m.location)| > 0;
  }

  /** Over any run, the reply to a recipient or to the end of the headers, by the names of the
      statements matched since the last reset: accepted if one is `known`; otherwise refused
      for good if one is `spammer` or `exploited`; otherwise for now if one is
      `spammer_friendly` or `dynamic`; and otherwise nothing is said. A refusal carries the
      reason of the first match with one of the names that decided it. */
  lemma VerdictOverRuns(es: seq<Event>, e: Event)
    requires Run(es).Some? && (e.command.Rcpt? || e.command.Eoh?)
    ensures var ms := MatchesSince(es);
            var p := Run(es).value;
            var reply := Verdict(p);
            && Step(p, e.table, e.command) == Some((p, Send(reply)))
            && if Named(ms, {"known"}) then reply == Accept
               else if Named(ms, {"spammer", "exploited"}) then
                 reply.Replycode? && reply.code == 554 && reply.reason != "" && IsFirstReason(ms, {"spammer", "exploited"}, reply.reason)
               else if Named(ms, {"spammer_friendly", "dynamic"}) then
                 reply.Replycode? && reply.code == 457 && reply.reason != "" && IsFirstReason(ms, {"spammer_friendly", "dynamic"}, reply.reason)
               else reply == Continue
  {
    hide MatchReason, Reason, FoundAll, Run, MatchesSince, IsFirstReason;
    RunCollects(es);
    var p := Run(es).value;
    SeverityByNames(p);
    if p.severity == Reject { DecidingReason(p, {"spammer", "exploited"}); }
    if p.severity == Tempfail { DecidingReason(p, {"spammer_friendly", "dynamic"}); }
  }

  /** The accumulated severity, by names. */
  lemma SeverityByNames(p: Policy)
    requires Sane(p)
    ensures p.severity == if Named(p.matches, {"known"}) then Known
                          else if Named(p.matches, {"spammer", "exploited"}) then Reject
                          else if Named(p.matches, {"spammer_friendly", "dynamic"}) then Tempfail
                          else NoSeverity
  {
    var ms := p.matches;
    forall m | m in ms
      ensures m.statement.name in {"known"} <==> SeverityOf(m.statement) == Known
      ensures m.statement.name in {"spammer", "exploited"} <==> SeverityOf(m.statement) == Reject
      ensures m.statement.name in {"spammer_friendly", "dynamic"} <==> SeverityOf(m.statement) == Tempfail
    {
    }
    hide SeverityOf;
    assert forall m | m in ms :: Rank(SeverityOf(m.statement)) <= Rank(p.severity);
  }

  lemma DecidingReason(p: Policy, names: set<string>)
    requires Sane(p) && Named(p.matches, names)
    requires forall m | m in p.matches :: SeverityOf(m.statement) == p.severity <==> m.statement.name in names
    ensures IsFirstReason(p.matches, names, Reason(p.matches, p.severity)) && Reason(p.matches, p.severity) != ""
  {
    hide MatchReason, Reason, SeverityOf;
    ReasonIsFirst(p.matches, p.severity, names);
    var k :| 0 <= k < |p.matches| && p.matches[k].statement.entities != []
             && Reason(p.matches, p.severity) == MatchReason(p.matches[k]);
    ReasonsAreTexts(p.matches[k]);
  }

  /** A negotiation settles on a version that both sides know, the greatest such, and on
      quarantining if the mail server offers it. */
  lemma NegotiationSettles(p: Policy, t: Table<StatementData>, version: nat, quarantine: bool)
    requires HaveEntities(p.matches)
    ensures var r := Step(p, t, Optneg(version, quarantine));
            && r.Some? && r.value.0 == START
            && r.value.1.Send? && r.value.1.response.Negotiated? && r.value.1.response.quarantine == quarantine
            && var v := r.value.1.response.version;
               v <= version && v <= 6 && (v == version || v == 6)
  {
    hide HaveEntities;
  }

  /** Two runs that found the same, in any order and any number of times, get the same kind
      of reply. */
  lemma OrderOfMatchesIsIrrelevant(es: seq<Event>, fs: seq<Event>)
    requires Run(es).Some? && Run(fs).Some?
    requires forall m :: m in MatchesSince(es) <==> m in MatchesSince(fs)
    ensures var (r, s) := (Verdict(Run(es).value), Verdict(Run(fs).value));
            (r.Replycode? && s.Replycode? && r.code == s.code) || (r == s && (r.Accept? || r.Continue?))
  {
    hide Reason, Run, MatchesSince, HaveEntities;
    RunCollects(es);
    RunCollects(fs);
    var p, q := Run(es).value, Run(fs).value;
    TopIsUnique(p.severity, q.severity, p.matches, q.matches);
    assert p.severity != Quarantine;
  }

  /** Nothing from before a reset plays a part after it, not even what the connection
      itself matched. */
  lemma {:induction false} ResetForgets(es: seq<Event>, r: Event, fs: seq<Event>)
    requires Run(es).Some? && Resets(r.command)
    ensures Run(es + [r] + fs) == Run(fs)
    decreases |fs|
  {
    hide Step, IsTop;
    var run := es + [r] + fs;
    if fs == [] {
      assert run[..|run| - 1] == es && run[|run| - 1] == r;
      assert Step(Run(es).value, r.table, r.command).Some? && Step(Run(es).value, r.table, r.command).value.0 == START by {
        ResetStarts(Run(es).value, r.table, r.command);
      }
    } else {
      ResetForgets(es, r, fs[..|fs| - 1]);
      assert run[..|run| - 1] == es + [r] + fs[..|fs| - 1];
      assert run[|run| - 1] == fs[|fs| - 1];
    }
  }

  lemma ResetStarts(p: Policy, t: Table<StatementData>, c: Command)
    requires HaveEntities(p.matches) && Resets(c)
    ensures Step(p, t, c).Some? && Step(p, t, c).value.0 == START
  {
    hide HaveEntities;
  }

  /** Against valid tables a command fails exactly when it mentions a signer whose key does
      not decode. */
  lemma FailsOnlyOnKeys(p: Policy, t: Table<StatementData>, c: Command, ar: Arity)
    requires Sane(p) && GoodArity(ar) && ValidStatements(t, ar)
    ensures Step(p, t, c).None? <==> exists l | l in LookupsOf(c) :: EntityFromText(l.1).Panic?
  {
    hide EntityFromText, ValidStatements, Reason, Macros, Located, Top, Sane, FoundAll;
    LookupsFailOnKeys(t, LookupsOf(c), ar);
    NoLookups(t);
  }

  lemma {:induction false} LookupsFailOnKeys(t: Table<StatementData>, lookups: seq<(Location, string)>, ar: Arity)
    requires GoodArity(ar) && ValidStatements(t, ar)
    ensures FoundAll(t, lookups).None? <==> exists l | l in lookups :: EntityFromText(l.1).Panic?
  {
    hide EntityFromText, ValidStatements, ConvertRows, FindAbout;
    if lookups != [] {
      LookupsFailOnKeys(t, lookups[1..], ar);
      var what := lookups[0].1;
      ParsedAddress(what);
      if EntityFromText(what).Ok? {
        AboutIsReadable(t, EntityFromText(what).value, ar);
      }
      assert forall l :: l in lookups <==> l == lookups[0] || l in lookups[1..];
    }
  }

  lemma AboutIsReadable(t: Table<StatementData>, e: Entity, ar: Arity)
    requires GoodArity(ar) && ValidStatements(t, ar)
    requires e.EMail? ==> '@' in e.address
    ensures ConvertRows(FindAbout(t, e)).Some?
  {
    hide ReadContents, ValidStatements, FindAll, Asns, AllKeys;
    var first := FindAll(t, AllKeys(e));
    var rows := FindAbout(t, e);
    ConvertRowsShape(rows);
    forall k | 0 <= k < |rows| ensures ReadContents(rows[k].data.contents).Some? {
      if rows[k] in first { FoundIsStored(t, AllKeys(e), rows[k]); } else { FoundIsStored(t, Asns(first), rows[k]); }
      RowReads(rows[k], t, ar);
    }
  }

  /* ---- the accumulator and the session, in place ---- */

  class PolicyAccumulator {
    const storage: Storage
    var statements: seq<Match>
    var macros: map<string, string>
    var severity: Severity

    function State(): Policy
      reads this
    {
      Policy(statements, macros, severity)
    }

    constructor (storage: Storage)
      ensures this.storage == storage && State() == START
    {
      this.storage := storage;
      statements, macros, severity := [], map[], NoSeverity;
    }

    method Reset()
      modifies this
      ensures State() == START
    {
      statements, macros, severity := [], map[], NoSeverity;
    }

    /** The search for the first match of the accumulated severity. */
    method ReasonText() returns (reason: string)
      requires HaveEntities(statements)
      ensures reason == Reason(statements, severity)
    {
      hide MatchReason;
      for k := 0 to |statements|
        invariant Reason(statements[k..], severity) == Reason(statements, severity)
      {
        if SeverityOf(statements[k].statement) == severity {
          return MatchReason(statements[k]);
        }
        assert statements[k..][1..] == statements[k + 1..];
      }
      reason := "";
    }

    /** `ok` is false where the source panics. */
    method Lookup(location: Location, what: string) returns (ok: bool)
      modifies this
      ensures var found := Found(storage.statements, location, what);
              (ok <==> found.Some?) && (ok ==> State() == Add(old(State()), found.value))
    {
      hide EntityFromText, ConvertRows, FindAbout;
      ParsedAddress(what);
      match EntityFromText(what) {
        case Err =>
          return true;
        case Panic =>
          return false;
        case Ok(_, entity) =>
          var found := storage.FindStatementsAbout(entity);
          if found.None? {
            return false;
          }
          ghost var ms := MatchesWith(location, entity, found.value);
          for k := 0 to |found.value|
            invariant statements == old(statements) + ms[..k] && macros == old(macros)
            invariant Top(severity, ms[k..]) == Top(old(severity), ms)
          {
            var statement := found.value[k].data;
            severity := Max(severity, SeverityOf(statement));
            statements := statements + [Match(location, entity, statement)];
            assert ms[k] == Match(location, entity, statement);
            assert ms[k..][1..] == ms[k + 1..];
            assert ms[..k + 1] == ms[..k] + [ms[k]];
          }
          assert ms[..|ms|] == ms;
          return true;
      }
    }

    method AddMacros(pairs: seq<(string, string)>)
      modifies this
      ensures State() == old(State()).(macros := Macros(old(macros), pairs))
    {
      for k := 0 to |pairs|
        invariant statements == old(statements) && severity == old(severity)
        invariant Macros(macros, pairs[k..]) == Macros(old(macros), pairs)
      {
        macros := macros[pairs[k].0 := pairs[k].1];
        assert pairs[k..][1..] == pairs[k + 1..];
      }
    }

    /** The lookups a command calls for, one after the other. */
    method LookupAll(lookups: seq<(Location, string)>) returns (ok: bool)
      modifies this
      ensures var found := FoundAll(storage.statements, lookups);
              (ok <==> found.Some?) && (ok ==> State() == Add(old(State()), found.value))
    {
      hide Found;
      ghost var ms: seq<Match> := [];
      AddNothing(State());
      assert lookups[0..] == lookups;
      assert forall rest: seq<Match> :: [] + rest == rest;
      for k := 0 to |lookups|
        invariant State() == Add(old(State()), ms)
        invariant var rest := FoundAll(storage.statements, lookups[k..]);
                  FoundAll(storage.statements, lookups) == if rest.Some? then Some(ms + rest.value) else None
      {
        assert lookups[k..][0] == lookups[k] && lookups[k..][1..] == lookups[k + 1..];
        ok := Lookup(lookups[k].0, lookups[k].1);
        if !ok {
          return;
        }
        ghost var found := Found(storage.statements, lookups[k].0, lookups[k].1).value;
        AddTwice(old(State()), ms, found);
        ms := ms + found;
      }
      assert ms + [] == ms;
      ok := true;
    }
  }

  lemma AddNothing(p: Policy)
    ensures Add(p, []) == p
  {
    assert p.matches + [] == p.matches;
  }

  lemma AddTwice(p: Policy, ms: seq<Match>, ns: seq<Match>)
    ensures Add(Add(p, ms), ns) == Add(p, ms + ns)
    ensures forall rest :: ms + (ns + rest) == ms + ns + rest
  {
    TopTwice(p.severity, ms, ns);
    assert p.matches + (ms + ns) == p.matches + ms + ns;
  }

  lemma {:induction false} TopTwice(s: Severity, ms: seq<Match>, ns: seq<Match>)
    ensures Top(Top(s, ms), ns) == Top(s, ms + ns)
    decreases |ms|
  {
    if ms == [] {
      assert ms + ns == ns;
    } else {
      TopTwice(Max(s, SeverityOf(ms[0].statement)), ms[1..], ns);
      assert (ms + ns)[1..] == ms[1..] + ns;
    }
  }

  class MilterSession {
    const policy: PolicyAccumulator
    var output: seq<Response>
    var open: bool

    constructor (storage: Storage)
      ensures fresh(policy) && policy.storage == storage && policy.State() == START && Sane(START)
      ensures output == [] && open
    {
      policy := new PolicyAccumulator(storage);
      output, open := [], true;
    }

    method WriteResponse(r: Response)
      modifies this`output
      ensures output == old(output) + [r]
    {
      output := output + [r];
    }

    method WritePolicyResponse()
      requires HaveEntities(policy.statements)
      modifies this`output
      ensures output == old(output) + [Verdict(policy.State())]
    {
      hide Reason;
      match policy.severity {
        case Known =>
          WriteResponse(Accept);
        case Reject =>
          var reason := policy.ReasonText();
          WriteResponse(Replycode(554, reason));
        case NoSeverity =>
          WriteResponse(Continue);
        case Quarantine =>
          var reason := policy.ReasonText();
          WriteResponse(Quarantined(reason));
        case Tempfail =>
          var reason := policy.ReasonText();
          WriteResponse(Replycode(457, reason));
      }
    }

    /** `ok` is false where the source panics. */
    method HandleCommand(c: Command) returns (ok: bool)
      requires Sane(policy.State())
      modifies this, policy
      ensures ok ==> Sane(policy.State())
      ensures var next := Step(old(policy.State()), policy.storage.statements, c);
              && (ok <==> next.Some?)
              && (ok ==> policy.State() == next.value.0
                         && (open <==> old(open) && next.value.1 != Closed)
                         && output == old(output) + if next.value.1.Send? then [next.value.1.response] else [])
    {
      hide FoundAll, Verdict, Macros, Add, IsTop;
      StepIsSane(policy.State(), policy.storage.statements, c);
      match c {
        case Optneg(version, quarantine) =>
          policy.Reset();
          WriteResponse(Negotiated(if version < MILTER_VERSION then version else MILTER_VERSION, quarantine));
          return true;
        case Macro(pairs) =>
          policy.AddMacros(pairs);
          return true;
        case Rcpt =>
          WritePolicyResponse();
          return true;
        case Eoh =>
          WritePolicyResponse();
          return true;
        case BodyEob =>
          policy.Reset();
        case Quit =>
          open := false;
          return true;
        case Abort =>
          policy.Reset();
          return true;
        case _ =>
          ok := policy.LookupAll(LookupsOf(c));
          if !ok {
            return;
          }
      }
      WriteResponse(Continue);
      return true;
    }
  }
}
