# The opinion store, its synchronisation, its grammar and its milter

A node of this network keeps signed opinions about network entities (domains, mail
addresses, networks, autonomous systems), gossips them to its peers, answers mail servers
with what it knows, and reads and prints everything as text. This project models the parts
whose correctness the rest depends on and proves what they promise. `dafny verify
dfyconfig.toml` checks all of it.

## How the model is laid out

* **Text.** `Text`, `Numerals`, `Entities` (what is printed), `Grammar` (the ordered-choice
  parser, with `Ok`, `Err` and `Panic` as results), `RoundTrip` (when the two undo each
  other), `Opinions` (the `;` and newline separated formats).
* **Lookup.** `Order` and `CidrIndex` (networks as ranges of hexadecimal text),
  `LookupKeys` (the chain of domains above an address), `Lookup` (what a query finds).
* **Store.** `Tables` (rows in rowid order, the next id being one above the largest, so ids
  of deleted rows are used again), `Store` (every operation as a function on store values),
  `StoreInvariants`, `Views` (a store seen without ids: a map from statement contents and
  signer to the opinion kept), `Cleaning`, `Startup`, `StartupProofs`, and `StorageClass`,
  where class `Storage` changes its fields in place and each method is proved equal to the
  function it implements.
* **Synchronisation.** `Registers` (last-writer-wins), `Merging` (deliveries), `Refusals`
  (when a delivery fails), `Listing` (replies and their grouping loop), `TemplateReplies`,
  `Signatures`, `Summaries` and `SummaryMeaning` (counts and hashes per date and name),
  `Protocol` (requests), `Convergence` (rounds between two stores), `Node` and `NodeClass`
  (the handlers, as steps and as methods), `Sessions` (the handlers of two nodes, message by
  message, run the rounds), `Network` (any number of nodes, their messages crossing, lost or
  repeated), `Lifetime` (starts, messages and input, from an empty database on), `NewNodes`
  (what two fresh nodes hold), `Handshake` and `Connections` (the template requests of a
  connection, between new nodes and between any), `Restarts` (what a start does to ties),
  `Lasting` (how long opinions are held), `Outages` (the announcements that bring a node down).
* **Milter.** `Milter`: the accumulator, the session and runs of commands.

SHA-256 of signature lists is the free constructor `Digest`; that signatures differ where
opinions differ is the predicate `UniquelySigned`. Signing, checking a signature, hashing an
address and decoding a key are fixed but arbitrary functions (`SIGN`, `VERIFIES`,
`SHA256_BASE64`, `KEY_DECODES`). Dates are day numbers. `Arity` says how many entities the
statements of a name have, one to three. A `Panicked`, `Panic` or `None` outcome is a
failed `unwrap`, `expect` or `panic!` of the source.

## What was found

Where a property does not hold for every input, the lemma named says exactly when it does.

* A domain such as `AS1.com` reads as an AS with text left over, and IPv6 text reads back
  only when it starts with a decimal digit: `RoundTrip.EntityRoundTrip`,
  `RoundTrip.AsDomainIsLost`.
* `#user@example.com` is hashed by `hash_value`, as its test says, but through `entity` it
  is an e-mail address whose local part starts with `#`: `RoundTrip.RawAddressIsEmail`,
  `RoundTrip.HashIsLiteral`.
* A comment holding `%` and two hexadecimal digits is decoded too far:
  `Opinions.CommentRoundTrip`, `Opinions.EscapeIsLost`.
* A statement with four entities is found again only when its third and fourth entity print
  alike; the last comparison is bound to the third: `StoreInvariants.FourEntitiesRepeat`.
* Comments are not stored, so only opinions without one come back as they were:
  `Signatures.StoredVerdict`.
* Equal date and serial number keep whichever opinion came first: `Registers.PutCommutes`.
  Two nodes can come to agree if and only if no such tie keeps them apart; otherwise, whatever
  they exchange, some date still causes requests: `Sessions.NodesAgreeWithoutTies`.
* A connection makes such ties. Each node asks the other for its templates and is answered
  with opinions of the day, valid for seven days; the other's own stored ones are valid for
  thirty. Two new nodes can come to agree if and only if neither answers on the day it
  signed its own: `Handshake.ConnectedNodesAgree`, and for any nodes
  `Connections.TiesAfterAnswer`. Starting both nodes on later days unties the root templates,
  until an answer of such a day ties them again: `Restarts.RestartsUntieRoots`.
* A response with a statement that has no template brings the node down, where the same
  statement in a broadcast is refused. And a node asks for every name it lacks, whether it
  has a template for it or not: the first announcement of an unknown name does it, unless
  `template` is asked for as well. Then the order of the two requests decides:
  `Outages.UnknownNameBringsDown`, `Outages.OrderOfRequestsDecides`; exactly when a response
  fails is `Refusals.ExactDelivery` and, for a whole announcement, `Outages.ExactCatchUpFails`.
* A statement can be taken for a longer one of the same name with the same first entities.
  The query asks for no order, and which row it takes depends on the order it gets:
  `StoreInvariants.ShorterFindsLonger`.
* Local input does not flush the cached summaries: `Node.LocalInputCoherence`.
* The key of a top-level domain, written with a trailing dot, never finds a row:
  `Lookup.TopLevelKeyFindsNothing`.
* After the end of one message the milter has forgotten what the connection itself matched:
  `Milter.ResetForgets`.

## Model

| member | source | states |
|---|---|---|
| `Entities.DisplayStatement` | src/model/statement.rs:68-82 | the printing loop with its `first` flag gives the name and the comma-joined entities in parentheses |
| `Entities.MatchesTemplate` | src/model/statement.rs:40-51 | the zip loop with early return decides: same name, same length, every entity of an allowed type |
| `Entities.TypesAreNamed` | src/model/entity.rs:99-112 | the type of an entity goes by the name of its kind in a template, and no other kind goes by it |
| `RoundTrip.EntityRoundTrip` | src/model/parser.rs:170-172 | an entity's text parses to that entity, all of it consumed, if and only if the entity is printable |
| `RoundTrip.EntityReads` | src/model/parser.rs:72-172 | the same inside a statement: no earlier alternative takes the text, and each entity stops at `,`, `)` or a blank |
| `RoundTrip.ParsedIsPrintable` | src/model/entity.rs:218-226 | whatever the grammar accepts it prints in a form it accepts, IPv6 apart |
| `RoundTrip.AsDomainIsLost` | src/model/parser.rs:110-115 | `AS1.com` is a domain text that does not read back as the domain |
| `RoundTrip.HashIsLiteral` | src/model/parser.rs:101-107 | a hash read through `entity` is the text written after `#`, never the hash of an address |
| `RoundTrip.RawAddressIsEmail` | src/model/parser.rs:170-172 | `#` and a mail address reads through `entity` as an e-mail address starting with `#`, all of it consumed |
| `RoundTrip.TemplateRoundTrip` | src/model/template.rs:20-75 | a template's text parses to the template if and only if it has a name and no empty list of types |
| `RoundTrip.StatementRoundTrip` | src/model/statement.rs:121-129 | a statement's text parses to the statement if and only if its name is one, it has entities, and all are printable |
| `RoundTrip.TypedFormReads` | src/model/parser.rs:174-192 | what is typed with any blanks instead of parentheses and commas reads as the statement |
| `RoundTrip.StatementParsed` | src/model/parser.rs:174-192 | both written forms of a statement yield only a name and parseable entities |
| `RoundTrip.StatementIsPlain` | src/model/statement.rs:68-82 | the text of a parseable statement has no newline, so the first line of a message is all of it |
| `Opinions.CommentRoundTrip` | src/model/mod.rs:21-34 | decoding undoes encoding if and only if the comment has no `%` followed by two hexadecimal digits |
| `Opinions.EscapeIsLost` | src/model/mod.rs:21-34 | the comment `%41` comes back as `A` |
| `Opinions.UnsignedRoundTrip` | src/model/opinion.rs:71-124 | the five printed fields parse to the same opinion if and only if the comment round-trips |
| `Opinions.OpinionRoundTrip` | src/model/opinion.rs:134-173 | the seven printed fields, key and signature included, parse to the same opinion under the same condition |
| `Opinions.DisplaySigned` | src/model/opinion.rs:217-225 | the printing loop gives the statement and each opinion on a line of its own |
| `Opinions.SignedRoundTrip` | src/model/opinion.rs:227-249 | a signed statement with any number of opinions parses back from its text if and only if the statement is well formed and all comments round-trip |
| `CidrIndex.WriteOctets` | src/model/entity.rs:174-181 | the byte loop writes the family and two uppercase hexadecimal digits an octet |
| `CidrIndex.CidrMinMax` | src/model/entity.rs:169-199 | the two keys are those of the first and the last address of the network; nothing else has keys |
| `CidrIndex.HexOrder` | src/model/entity.rs:174-193 | text order on the hexadecimal octets is numeric order, at any width |
| `CidrIndex.IndexIsExact` | src/storage/mod.rs:177-187 | the two string comparisons hold exactly when both are of one family and the stored range contains the queried one |
| `CidrIndex.ContainsIsPrefix` | src/storage/mod.rs:177-187 | range containment is section 3.1 of RFC 4632: a prefix no longer, and equal addresses under it |
| `LookupKeys.AllLookupKeys` | src/model/entity.rs:149-166 | the recursion ends on every text and yields the key list; an address comes first and its hash second |
| `LookupKeys.AddressKeysAre` | src/model/entity.rs:149-166 | a mail address has as keys itself, its hash, and then the suffixes of its domain, longest first |
| `LookupKeys.SuperDomainIsSmaller` | src/model/entity.rs:121-146 | the domain above is smaller by twice the length less one for a trailing dot, although `.b` becomes `b.` |
| `LookupKeys.KeysAreSuffixes` | src/model/entity.rs:148-166 | for k labels the keys are the k suffixes, longest first, the last one dotted when k is at least 2 |
| `Lookup.ReferencingMeans` | src/storage/mod.rs:172-204 | for any entity the rows found are exactly those whose first entity covers the network, or prints like the entity; if its text reads back, those whose first entity it is |
| `Lookup.AsnStep` | src/storage/mod.rs:441-454 | the second pass finds exactly the rows about what an `asn` row found so far names second |
| `Lookup.AboutNetwork` | src/storage/mod.rs:429-456 | an address yields the rows that cover it, followed by those about the AS named there, and nothing else |
| `Lookup.AboutAddress` | src/storage/mod.rs:429-456 | looking up an address the grammar accepts yields exactly the rows whose first entity is the address, its hash, its domain or a domain above that is not top-level, followed by the AS step; for other addresses, those that print like one of these |
| `Lookup.AboutDomain` | src/storage/mod.rs:429-456 | looking up a domain yields exactly the rows about it or a domain above that is not top-level, followed by the AS step |
| `Lookup.AboutOneKey` | src/storage/mod.rs:429-456 | anything else yields exactly the rows that refer to it, followed by the AS step |
| `Lookup.TopLevelKeyFindsNothing` | src/model/entity.rs:135-139 | no valid table has a row for a top-level domain's dotted key |
| `Store.RowReadsBack` | src/storage/statement.rs:127-148 | a row reads back as the statement it was made from if and only if there are at most four entities, all printable |
| `StoreInvariants.SelectIsExact` | src/storage/mod.rs:276-310 | under one arity per name the select finds a row exactly when one has these contents; for tables without that, see `StoreInvariants.ShorterFindsLonger` |
| `StoreInvariants.RefusedWithoutTemplate` | src/storage/mod.rs:123-138 | persisting refuses exactly when the statement is no template and every known template has another name, another length, or allows no entity of some type at its place; nothing changes then |
| `StoreInvariants.PersistFindsOrInserts` | src/storage/statement.rs:15-78 | persist refuses without a template, otherwise returns the one row with these contents, says whether it is new, keeps every invariant and caches templates and signers |
| `StoreInvariants.PersistAgain` | src/storage/statement.rs:28-34 | persisting again returns the same id as old, gives the statement back when read, and changes nothing |
| `StoreInvariants.FourEntitiesRepeat` | src/storage/mod.rs:297-305 | a four-entity statement is found again if and only if entities three and four print alike; otherwise another row is taken or the insert hits the unique constraint |
| `StoreInvariants.ShorterFindsLonger` | src/storage/mod.rs:284-309 | on any table and for a statement of one to three entities: in some fetch order another row is taken for it if and only if a longer row begins with its columns; in every order if and only if it is moreover not stored itself; and it is found itself in every order if and only if it is stored and no longer row is |
| `Views.KeysAreDistinct` | src/storage/mod.rs:371-391 | a valid opinion table has at most one row per statement and signer |
| `Views.PersistOpinionPuts` | src/storage/mod.rs:361-410 | persisting an opinion never fails on a stored statement and is, on the view, a last-writer-wins write, new exactly when it is taken |
| `Views.NewerOpinionWins` | src/storage/mod.rs:361-410 | by day and serial number: an opinion replaces what its signer had on the statement, and is reported new, exactly if its day is later, or the same with a higher serial number, or there was none; every other opinion stays, and the reported id is that of the row held |
| `Registers.PutCommutes` | src/storage/mod.rs:378-391 | two deliveries commute unless they tie, differ and would both be taken |
| `Registers.OrderDoesNotMatter` | src/storage/mod.rs:361-410 | without ties, the same entries in any order and any number end in the same register |
| `Registers.GreatestIsKept` | src/storage/mod.rs:361-410 | whatever is delivered in whatever order, a key ends with the latest day, and on that day the highest serial number, of what it held and what came; what it held stays unless something strictly newer came |
| `Registers.JoinIsGreatest` | src/storage/mod.rs:378-391 | the join holds under every key the one of the two opinions with the later day, or the higher serial number of one day |
| `Registers.MergeProgress` | src/storage/mod.rs:361-410 | taking over part of another register keeps the join, adds no difference, and settles every key where something newer came |
| `Merging.SignedPuts` | src/reputation_net/mod.rs:230-252 | a broadcast statement is refused untouched without a template, and otherwise writes exactly its entries |
| `Merging.MergePuts` | src/reputation_net/mod.rs:327-346 | a response that is not stopped stores all its statements and writes exactly its entries; when it is stopped say the next three rows |
| `Refusals.DoneIsAccepted` | src/reputation_net/mod.rs:334-337 | a response is taken whole if and only if each statement, when its turn comes, finds a template |
| `Refusals.PlainDelivery` | src/reputation_net/mod.rs:334-337 | one that brings no template is taken if and only if all its statements have a known template before it |
| `Refusals.ExactDelivery` | src/reputation_net/mod.rs:334-337 | while the template cache says what the table says, any response is taken if and only if each of its statements has a known template or one brought earlier in the response |
| `Merging.MergeOrderDoesNotMatter` | src/reputation_net/mod.rs:327-346 | the same signed statements in any order and repetition end in the same view, whatever ids the rows get |
| `Listing.GroupingIsUnique` | src/storage/mod.rs:255-271 | flattening back to the rows, non-empty groups and different neighbours determine the grouping |
| `Listing.GroupsAreGrouping` | src/storage/mod.rs:244-254 | taking each statement of the name with its opinions of the date is such a grouping of the joined rows |
| `Listing.ReplyCarries` | src/storage/mod.rs:239-274 | a reply never fails on valid tables, has each statement once and none without opinions, and carries exactly the view's entries of name and date |
| `Signatures.StoredVerdict` | src/storage/schema.rs:165-182 | an opinion comes back from the tables unchanged if and only if its comment is empty, and then verifies exactly when it did |
| `Signatures.RepliesVerify` | src/model/opinion.rs:207-214 | all statements of a reply verify if and only if all stored opinions of that name and date do |
| `Signatures.SignedVerifies` | src/model/opinion.rs:35-56 | if a key signs well, what it signs verifies: the signature covers the opinion's text followed by the statement's |
| `Signatures.AnswersVerify` | src/reputation_net/mod.rs:308-320 | then every statement in an answer to a template request verifies |
| `Signatures.OwnOpinionsVerify` | src/storage/mod.rs:81-86 | and so do the own opinions stored at a start |
| `Signatures.TypedOpinionVerifies` | src/reputation_net/user_input.rs:22-41 | and the opinion stored on what is typed |
| `Summaries.NewSyncInfo` | src/storage/sync_info.rs:21-29 | the hasher loop is fed the whole list in order, and the count is its length |
| `Summaries.GroupConsecutive` | src/storage/mod.rs:576-581 | grouping neighbouring rows of one name gives each name all its signatures, because the rows are sorted |
| `SummaryMeaning.InfoMeans` | src/storage/mod.rs:562-583 | a summary lists exactly the names with opinions of the date, with the number of signatures and the hash of their sorted list |
| `SummaryMeaning.CountIsTransfer` | src/storage/mod.rs:562-583 | the announced count is the number of opinions a reply for the name carries |
| `Protocol.RequestMeans` | src/reputation_net/sync.rs:41-57 | a name is requested exactly when the other view has more signatures, or as many and different ones |
| `Protocol.QuiescenceIsAgreement` | src/storage/sync_info.rs:32-34 | announcing a date both ways causes no request if and only if both stores hold the same opinions of it |
| `Protocol.QuiescenceEverywhere` | src/reputation_net/sync.rs:41-57 | no request on any date if and only if the views are equal |
| `Protocol.RequestIsProductive` | src/reputation_net/mod.rs:265-274 | at the highest differing date a request brings a newer opinion, or the request the other way is made too and does |
| `Protocol.DeliverAllPuts` | src/reputation_net/mod.rs:280-346 | the replies to any list of requests are all taken and write exactly the sender's entries of those names |
| `Convergence.ExchangePuts` | src/reputation_net/mod.rs:265-346 | whatever is asked in whatever order, tied or not, nothing fails and the receiver takes over exactly the entries of those names |
| `Convergence.ExchangeIsSafe` | src/reputation_net/mod.rs:265-346 | without ties the join stays, no difference appears, and newer opinions settle their keys |
| `Convergence.RoundMakesProgress` | src/storage/sync_info.rs:32-34 | a round at the highest differing date makes at least one request and strictly shrinks the differing keys |
| `Convergence.RunsConverge` | src/reputation_net/sync.rs:41-57 | for stores not tied apart, runs on the highest differing dates are no longer than the number of differing keys, can go on exactly while the views differ, and end in the join |
| `Convergence.SomeRunConverges` | src/reputation_net/sync.rs:41-57 | from every pair of stores not tied apart a run reaches the join |
| `Convergence.EnoughRoundsConverge` | src/reputation_net/sync.rs:41-57 | as many rounds on the then highest differing date as there were differing keys are enough, whatever rounds lie between |
| `Convergence.TiedNeverAgree` | src/storage/mod.rs:378-391 | tied apart, no rounds on any dates and names end in equal views, and some date still causes a request |
| `Convergence.AgreementNeedsNoTies` | src/storage/mod.rs:378-391 | some rounds end in equal views if and only if no key is tied apart, and then rounds on the highest dates do |
| `Sessions.ExchangeIsRound` | src/reputation_net/mod.rs:223-350 | announcement, requests and responses through the handlers of two sound nodes are exactly a round of their stores |
| `Sessions.SessionsConverge` | src/reputation_net/mod.rs:193-350 | exchanges that follow one another, message by message, caches included: two sound nodes not tied apart converge to the join within as many exchanges as there were differing keys |
| `Sessions.NodesAgreeWithoutTies` | src/reputation_net/mod.rs:193-350 | two sound nodes can come to agree by messages if and only if they are not tied apart; if they are, every sequence of exchanges leaves a date that causes requests |
| `Sessions.EnoughExchangesConverge` | src/reputation_net/mod.rs:193-350 | enough exchanges on the then highest differing date lead to the join, whatever exchanges lie between |
| `Network.HistoryFits` | src/reputation_net/mod.rs:193-350 | any number of nodes whose messages are handled in any order, again, or never: no history fails, every node stays sound, and no node ever goes back to an older opinion |
| `Network.ChangesAreBounded` | src/storage/mod.rs:378-391 | however long a history is, at most so many of its actions change a view as there were newer opinions to learn, over all nodes |
| `Network.HeldStays` | src/storage/mod.rs:378-391 | the newest opinion of every signer on every statement is never lost from the net |
| `Network.SilentIsAgreed` | src/reputation_net/sync.rs:41-57 | no announcement of any date causes a request anywhere if and only if all nodes hold the same opinions |
| `Network.ThoroughTeaches` | src/reputation_net/mod.rs:263-346 | unless all nodes agree already, a history in which every node announces every date and every message posted is handled at last teaches some node something, whatever crosses |
| `Network.ThoroughHistoriesConverge` | src/reputation_net/mod.rs:193-350 | as many such histories as there were opinions to learn leave every node with the newest opinion of every signer on every statement, and the net silent |
| `Network.NetConverges` | src/reputation_net/mod.rs:193-350 | from every state the net can be in, with whatever messages on their way, some such histories lead to agreement |
| `Network.PairsConverge` | src/reputation_net/mod.rs:193-350 | two nodes with messages crossing in any way keep their join and open no new difference, and are silent if and only if both hold the join |
| `NewNodes.NewNodesArePaired` | src/storage/mod.rs:44-93 | two nodes started on empty databases are sound, hold their own opinions on the root templates, and understand each other |
| `Handshake.ConnectedViews` | src/reputation_net/mod.rs:476-482 | after the template requests of their connection two new nodes hold their own thirty-day opinions and the other's seven-day ones, in whatever order the answers were made |
| `Handshake.ConnectedNodesAgree` | src/reputation_net/mod.rs:298-350 | two new nodes, once connected, can come to agree if and only if neither answered on the day its stored own opinions carry; if one did, some date causes requests whatever they exchange |
| `Connections.ConnectionMakesCompatible` | src/reputation_net/mod.rs:298-350 | any two healthy nodes: if each has templates for its own statements and each takes the template rows of both, their connection never fails, each has templates for what both hold afterwards, and they can come to agree if and only if they are not tied apart then |
| `Connections.TiesAfterAnswer` | src/reputation_net/mod.rs:298-323 | once an answer is taken, the two are tied apart if and only if they were under a key it says nothing about, or are on one of the sender's template rows: where the answer was taken, if the sender's stored opinion is another one of that day with serial number 0, and where it was refused, if the asker's differs from it and ties with it |
| `Restarts.RestartsUntieRoots` | src/storage/mod.rs:44-93 | once both nodes have started on days later than those of their root opinions, they are tied apart exactly by unexpired ties under other keys |
| `Restarts.RestartedNodesAgree` | src/storage/mod.rs:81-86 | two new nodes tied apart by their connection can come to agree again once both have started on later days |
| `TemplateReplies.TemplatesAreListed` | src/storage/mod.rs:157-169 | on valid tables the list never fails and holds exactly the entities of the template rows |
| `TemplateReplies.ReplyMembers` | src/reputation_net/mod.rs:308-320 | the answer signs each listed template, and nothing else |
| `Node.StepKeepsStore` | src/reputation_net/mod.rs:223-350 | every handler, template requests included, keeps tables valid and caches covering; one fails if and only if it handles a response in which some statement finds no template in its turn |
| `Node.PlainResponseFails` | src/reputation_net/mod.rs:327-346 | a response that brings no template fails if and only if some statement in it has no known template |
| `Node.ExactResponseFails` | src/reputation_net/mod.rs:327-346 | with an exact template cache any response fails if and only if some statement has neither a known template nor one brought earlier in it |
| `Node.StepKeepsExact` | src/reputation_net/mod.rs:223-350 | no handler makes the template cache say what the table does not |
| `Node.RunsAreSound` | src/reputation_net/sync.rs:20-69 | over any run of handlers every cached summary equals what the tables give now |
| `Node.SummaryIsSignatures` | src/storage/mod.rs:562-583 | two stores have equal summaries of a date if and only if their signatures per name are equal sets |
| `Node.LocalInputCoherence` | src/reputation_net/user_input.rs:22-41 | after a statement is typed, stored and signed, the cached summaries are right if and only if the opinion was not taken, or neither affected date is cached |
| `Lifetime.EveryLifeIsHealthy` | src/storage/mod.rs:44-63 | from an empty database on, through starts with cleanup, messages and input: the node falls if and only if a response comes in which some statement finds no template in its turn; until then listing the opinions on a statement gives exactly those held on it, and the own key stays |
| `Lasting.OpinionsLast` | src/storage/mod.rs:517-544 | an opinion that nothing is written over or in the place of is held after any life if and only if every start in it was no later than its date and the days it is valid |
| `Lasting.DeedKeeps` | src/storage/mod.rs:361-410 | no message and no input takes an opinion away or puts an older one in its place; only a start does, past its days |
| `Lasting.TypedLasts` | src/reputation_net/user_input.rs:22-41 | what is typed in and taken is held through starts up to the thirtieth day after, and through none later |
| `Lasting.AnswersLast` | src/model/opinion.rs:58-68 | what is taken from the answer to a template request is held through starts up to the seventh day after, and through none later |
| `Outages.PlainReplyFails` | src/reputation_net/mod.rs:334-337 | the reply about any name but `template` is taken if and only if the asker knows a template for every statement in it |
| `Outages.TemplateReplyFails` | src/reputation_net/mod.rs:334-337 | the reply about `template` is taken if and only if each statement finds a template in its turn; always, if all are templates themselves |
| `Outages.CatchUpSucceeds` | src/reputation_net/mod.rs:263-346 | after an announcement, asking for any names succeeds if and only if every statement in the replies, in the order of the requests, finds a template in its turn |
| `Outages.PlainCatchUpFails` | src/reputation_net/sync.rs:45-52 | without `template` among the names it fails if and only if some reply holds a statement the asker knows no template for |
| `Outages.ExactCatchUpFails` | src/reputation_net/sync.rs:45-52 | with an exact template cache it fails if and only if some statement has neither a known template nor one in the replies before it |
| `Outages.UnknownNameBringsDown` | src/reputation_net/sync.rs:45-52 | a name announced of which the hearer has no opinions and knows no template is asked for, and the replies bring it down, unless it asks for templates as well |
| `Outages.OrderOfRequestsDecides` | src/reputation_net/mod.rs:265-274 | a new node that hears of a template and of a statement of it asks for both; if the templates come first it goes on, if they come last it falls |
| `Cleaning.CleanupKeeps` | src/storage/mod.rs:517-544 | cleanup keeps exactly the opinions of which today is no later than date and days valid together, and the statements that they, their signers and the private key refer to; nothing dangles |
| `Cleaning.CleanupIsIdempotent` | src/storage/mod.rs:517-544 | a second cleanup of the same day changes nothing |
| `Startup.CachesCover` | src/storage/mod.rs:95-121 | after reading the caches, every template and signer row is in its cache, parsed |
| `StartupProofs.InitializationCompletes` | src/storage/mod.rs:65-93 | on any valid database initialisation succeeds and leaves both root templates, one private key with its signer, own opinions, covering caches, and a template for every signer |
| `StartupProofs.CompleteStays` | src/storage/mod.rs:62-93 | initialising a complete database again on the same day changes no table |
| `StartupProofs.CleanupKeepsComplete` | src/storage/mod.rs:59-60 | cleanup on that day removes none of it |
| `StartupProofs.StartIsIdempotent` | src/storage/mod.rs:44-62 | starting twice on one day changes no table and finds the same key |
| `StorageClass.CacheAgrees` | src/storage/mod.rs:206-237 | in a valid store the cache has every signer and gives the one the tables give |
| `StorageClass.ListedAreHeld` | src/storage/mod.rs:206-237 | in a valid store the list for a statement is one opinion of each signer who has one on it, with the values held, and nothing else |
| `StorageClass.HashedWithoutTemplate` | src/storage/mod.rs:344-359 | the form persisted is the statement if a template fits it, and otherwise the one in which each address has become its hash and nothing else has changed |
| `StorageClass.Storage.HasMatchingTemplate` | src/storage/mod.rs:123-138 | the loop over the templates decides whether one fits |
| `StorageClass.Storage.TryInsertStatement` | src/storage/mod.rs:312-342 | the insert fails exactly on the unique constraint, and otherwise appends the row under the next id |
| `StorageClass.Storage.Persist` | src/storage/statement.rs:15-78 | new state and result are those of `PersistStatement` |
| `StorageClass.Storage.PersistStatementHashingEmails` | src/storage/mod.rs:344-359 | addresses are hashed exactly when no template fits |
| `StorageClass.Storage.PersistOpinion` | src/storage/mod.rs:361-410 | new state and result are those of `PersistOpinion` on values, of which `Views.NewerOpinionWins` says what they are |
| `StorageClass.Storage.ListOpinionsOn` | src/storage/mod.rs:206-237 | in a valid store exactly the opinions held on the statement, one for each signer; elsewhere the rows with their cached signers, or the failed unwrap |
| `StorageClass.Storage.ListStatementsNamedSigned` | src/storage/mod.rs:239-274 | the `last_id` loop computes the grouping, and indexing the last group is safe |
| `StorageClass.Storage.GetSyncInfos` | src/storage/mod.rs:562-583 | the summary of the date |
| `StorageClass.Storage.FindStatementsReferencing` | src/storage/mod.rs:171-204 | the converted rows of the lookup |
| `StorageClass.Storage.FindStatementsAbout` | src/storage/mod.rs:429-456 | the two loops give the rows of all keys, then those of the AS step; which rows these are say `Lookup.AboutAddress` and its neighbours |
| `StorageClass.Storage.EnsureOwnKey` | src/storage/mod.rs:458-502 | the stored key with the signer its row names, or the generated one stored |
| `StorageClass.Storage.InitializeDatabase` | src/storage/mod.rs:65-93 | new state and result are those of `Initialize` |
| `StorageClass.Storage.Cleanup` | src/storage/mod.rs:517-544 | new state is that of `Cleanup` on values, and an opinion stays exactly if today is no later than its date and the days it is valid |
| `NodeClass.SyncState.GetOwnInfos` | src/reputation_net/sync.rs:28-64 | cached or computed and cached |
| `NodeClass.SyncState.AddInfos` | src/reputation_net/sync.rs:40-57 | the loop pushes exactly the requested names, each once |
| `NodeClass.ReputationNet.AnnounceInfos` | src/reputation_net/mod.rs:193-200 | is the announcing step, and while the cached summaries are right it announces what the tables give |
| `NodeClass.ReputationNet.HandleAnnouncement` | src/reputation_net/mod.rs:263-275 | posts one request for each requested name of the announced date |
| `NodeClass.ReputationNet.HandleBroadcast` | src/reputation_net/mod.rs:223-262 | is the broadcast step, flush included |
| `NodeClass.ReputationNet.HandleTemplateRequest` | src/reputation_net/mod.rs:298-323 | the loop over all templates is the template request step |
| `NodeClass.ReputationNet.HandleRequest` | src/reputation_net/mod.rs:280-298 | is the request step |
| `NodeClass.ReputationNet.HandleResponse` | src/reputation_net/mod.rs:327-350 | the two loops and the flush are the response step |
| `NodeClass.ReputationNet.HandleInput` | src/reputation_net/user_input.rs:22-41 | stores and signs a typed statement, flushing nothing |
| `Milter.VerdictOverRuns` | src/milter/mod.rs:92-153 | over any run the reply to a recipient or end of headers, by the names of the statements matched since the last reset: accepted if one is `known`, otherwise 554 if one is `spammer` or `exploited`, otherwise 457 if one is `spammer_friendly` or `dynamic`, otherwise nothing; with the non-empty reason of the first match that decides |
| `Milter.MatchesMean` | src/milter/policy.rs:109-136 | those matches are exactly the stored statements about what some command since the reset mentions: host name, address, greeting and sender without brackets, and the addresses of four kinds of header |
| `Milter.NegotiationSettles` | src/milter/mod.rs:117-128 | a negotiation settles on the lesser of the two versions and forgets everything |
| `Milter.OrderOfMatchesIsIrrelevant` | src/milter/policy.rs:109-134 | runs that found the same matches in any order get the same kind of reply |
| `Milter.ResetForgets` | src/milter/policy.rs:77-81 | nothing from before a reset plays a part after it |
| `Milter.FailsOnlyOnKeys` | src/milter/policy.rs:109-134 | against valid tables a command fails exactly when it mentions a signer whose key does not decode |
| `Milter.PolicyAccumulator.Lookup` | src/milter/policy.rs:109-134 | the loop adds every match in order and raises the severity to the greatest |
| `Milter.PolicyAccumulator.ReasonText` | src/milter/policy.rs:87-107 | the search gives the reason of the first match of the accumulated severity |
| `Milter.MilterSession.WritePolicyResponse` | src/milter/mod.rs:92-109 | writes the one response the severity stands for |
| `Milter.MilterSession.HandleCommand` | src/milter/mod.rs:115-153 | accumulator and output after a command are those of `Step`, and the severity stays the greatest of the matches |

## Left out

- StoreInvariants.PersistFindsOrInserts: assumes one arity of one to three entities per statement name, and entities whose text reads back; what goes wrong otherwise is `StoreInvariants.ShorterFindsLonger`, `StoreInvariants.FourEntitiesRepeat` and `Store.RowReadsBack`.
- Views.PersistOpinionPuts: signers are secp256k1 keys, the only ones the grammar reads back; a signer of another scheme could be stored but not read.
- Registers.OrderDoesNotMatter: needs that nothing ties, because the code keeps the first of two tied opinions; see `Registers.PutCommutes` for the exact condition.
- StoreInvariants.SelectIsExact: assumes the same; for any table `StoreInvariants.ShorterFindsLonger` says exactly when the select is right.
- StoreInvariants.PersistAgain: assumes the same.
- Sessions.SessionsConverge: messages arrive, one exchange ends before the next starts, and both nodes have templates for each other's statements, as the response handler expects; for messages that cross see `Network.PairsConverge`, for nodes tied apart `Sessions.NodesAgreeWithoutTies`.
- Network.ThoroughHistoriesConverge: nothing new is said during the histories, so broadcasts, typed input, template requests, starts and cleanups are not among the actions; all nodes have templates for all statements about, and no opinions tie.
- Connections.ConnectionMakesCompatible: each request is answered once and each answer arrives.
- NewNodes.NewNodesConverge: leaves out the template requests of the connection, which `Handshake.ConnectedNodesAgree` has.
- Handshake.ConnectedNodesAgree: each request is answered once and each answer arrives; the two keys differ.
- SummaryMeaning.InfoMeans: different opinions have different signatures, and the hash of a list determines the list, boundaries between signatures included.
- LookupKeys.AllLookupKeys: an e-mail entity has an `@`, as every parsed one has; without one the source panics.
- StorageClass.Storage.FindStatementsAbout: an e-mail entity has an `@` here, too.
- Opinions.OpinionRoundTrip: base64 is recognised by its shape; padding rules of section 4 of RFC 4648, and texts that differ but decode alike, are not modelled.
- Opinions.CommentRoundTrip: comments are byte texts; that decoded bytes are again valid UTF-8, which the source unwraps, is not modelled.
- Milter.VerdictOverRuns: the connection, header and address texts are given; packet bytes, the `Received` pattern, header names and address lists are library work.
- Milter.MilterSession.HandleCommand: write errors, and what a client sends after `Quit`, are not modelled.
- StorageClass.Storage.TryInsertStatement: transactions, and rowids beyond 64 bits, are not modelled; the second select after a failed insert sees the same table and ends in the same panic.
- StorageClass.Storage.ListOpinionsOn: the opinion's base64 signature always decodes, being written by the encoder.
- A row written without a comment reads as one with an empty comment; `query` binding more values than the statement has placeholders (src/storage/mod.rs:301) is taken to ignore the extra one.
- The subscriptions a new template causes, and publishing a typed statement.
- libp2p, gossipsub, mDNS, the RPC codec and its size limits, connection pooling, SQL text, migrations and JSON.
- Calendar dates, `fix_cidr`, `refresh_opinions`, the scheduler, console output and command line.
- `src/milter/packet.rs`: commands are only parsed and responses only printed, so nothing undoes anything.
- `get_all`, `list_templates`, `topics` and `specific_template`: listings for display, easy members.
