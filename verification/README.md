# Verified model of the notes server

A Dafny model of the parts of the notes server where correctness is not obvious
from reading one function: note mutations with their git history and trash, the
search index and its query language, the frontmatter scanner and editor, the
link index, the WebSocket hub, the login limiter, and the plugin lifecycle
around the history. `dafny verify dfyconfig.toml` checks everything.

Code that changes things step by step is modelled by classes and loops, each
method proved equal to a function of the old state; what the program promises is
then proved about those functions, over whole runs where it is a promise about
runs, and in terms that do not name them. Concurrent protocols are state machines,
and their theorems hold for every interleaving of their steps: taking or giving up
a lock, a read or write of a field or file that another thread can reach at that
moment, and a whole `Record`.

| module | models |
|---|---|
| `Frontmatter`, `Literals` | the byte scanner and the line editor of a note's header; a decoder of the literals it writes |
| `Tokens`, `SearchIndex`, `Search`, `Query` | the inverted index, its search, and the query language with its printer in the search dialog |
| `Matching` | what each field of a query finds, said of the notes |
| `Links` | the link index and its three queries |
| `Hub`, `HubPresence` | the select loop of the WebSocket hub; who is shown on a path and who is sent what |
| `LoginLimiter` | the sliding window of failed logins, compacted in place |
| `Repository`, `Trash`, `GitHistory` | commits, the trash index, the log scan it replaced, and the `Git` object |
| `Naming`, `NoteService` | free names for new notes; save, delete, restore and create, one at a time |
| `ConcurrentVault` | the same calls split into lock, file and commit steps and interleaved |
| `HistoryLock` | the reader/writer lock around the attached history, with the path locks and lifecycle steps that meet it |
| `PluginManager`, `PluginLifecycle` | the plugin manager and the history plugin, one call at a time and interleaved |
| `Text`, `Slices`, `Sums`, `Paths`, `Numerals`, `Wrappers` | shared vocabulary |

## Where the code falls short of its promise

Each of these is a lemma with a concrete input or run, next to the exact
condition under which the promise holds.

- For distinct keys without colon and newline, and where YAML accepts the edited
  header, upserting frontmatter twice equals upserting once if and only if no key
  starts with white space (`Frontmatter.UpsertIdempotent`,
  `Frontmatter.IndentedKeyIsWrittenAgain`). With colons it can fail otherwise: the
  line of `a:b` is taken for a line of `a` (`Frontmatter.ColonKeyIsOverwritten`).
  The program itself only passes the keys `updated`, `updated_by` and `created_by`.
- A property query that the web application prints, for any key and value, reads
  back if and only if the key can stand before the operator (it is not empty, has
  no quote and no space, and no operator is found inside it first) and the value
  has no double quote and does not make the operator longer
  (`Query.SuggestionRoundTrip`, `Query.PropertyQueryRoundTrip`). The properties of
  a note print queries for keys such as `due date` and `a:b`, which do not read
  back (`Query.KeysThatDoNotRead`).
- Clicking a property is meant to find every note that shows that text under that
  key. Where the printed query is one field, or its key reads, it does if and only
  if the key reads, the text has no double quote, and the key is in lower case
  (`Search.ClickFindsExactly`). For every key and text, it does if and only if the
  query asks for nothing but the property (`Search.ClickedNotesFound`); that can
  hold by accident when a key falls apart into fields that ask for nothing, as
  `a path: prop:` does (`Search.StrayQueryFindsAll`). When the query reads back,
  the clicked note itself is found if and only if the key is in lower case, or the
  note has it a second time in lower case with a matching value
  (`Search.ClickedNoteFound`).
- An operator at the start of a property filter hides its own later occurrences
  (`Query.ParsedExactly`, `Query.LeadingOperatorHides`).
- A deleted file of any name can be in the trash, but `RestoreDeleted` brings it
  back if and only if its name is a normalized note path; an attachment such as
  `img.png` is looked for as `img.png.md` (`NoteService.RestorableIffNormal`,
  `NoteService.AttachmentIsLost`, `NoteService.ImageIsAttachment`).
- A client that leaves is taken off every path it was shown on if and only if it was
  still connected (`HubPresence.LeavesExactly`). One that was cut off because its
  queue was full stays in every later notice of the path, for ever
  (`HubPresence.StaysOnShow`).
- Once `SetHistory` or `DetachHistory` waits for the write lock, it can still get
  it if and only if no `RestoreNote` that holds the read lock is bound to ask for
  it a second time, or waits for the path of an edit that is bound to ask for it;
  otherwise they all wait for ever (`HistoryLock.WriteLockReachable`). Both cases
  are reached from the start (`HistoryLock.DeadlocksHappen`).
- `CloseAll` closes plugins after it gave up the manager's mutex, so that a Close
  can meet an Enable or a Disable and leave a backend attached that the plugin has
  forgotten. After `SetEnabled("git-history", false)`, with no writer announced, no
  commit is made until the next Enable if and only if there is no such backend
  (`PluginLifecycle.QuietExactly`). Switching off an active plugin leaves one behind
  if and only if the plugin's field was empty when Disable looked at it for the
  last time, a backend was attached then, and no Close has detached it since
  (`PluginLifecycle.SwitchOffExactly`). Disable tests the field and then reads it
  again to pass it on: that is the last look, and a Close can clear the field
  before it (`PluginLifecycle.FieldSetYetAttached`); an empty field at the test is
  the other (`PluginLifecycle.CloseAgainstEnable`). Two steps alone make a backend
  forgotten (`PluginLifecycle.OrphanedExactly`).

## Modelling choices

Text is a sequence of ASCII characters, so characters are bytes. Times are
integers. Hashes and digests are injective. YAML is a function of the header
text to invalid, empty, a mapping or another value. `strconv.ParseFloat` is a
function from text to an optional number. Search scores are doubled, so the half
weight of a prefix match is an integer. A note's links and aliases are inputs of
the link index. Writes to the vault and to the trash index succeed, and a path
with a leading slash is looked for without it.

## Model

| member | source | states |
|---|---|---|
| `Frontmatter.ScanFindsFence` | packages/shared/frontmatter.go:24-42 | the byte scan stops at the first closing fence that a line array has, with the same header and the same rest |
| `Frontmatter.ScanDecides` | packages/shared/frontmatter.go:14-48 | on any text that opens a header, reading by lines and reading by byte offsets decide alike |
| `Frontmatter.SplitFrontmatter` | packages/shared/frontmatter.go:14-48 | header fields and body equal those of the line-based reading, for every text and every YAML reader |
| `Frontmatter.ScanBytes` | packages/shared/frontmatter.go:24-48 | the offset loop from any position equals the scan over the remaining lines |
| `Frontmatter.PutField` | packages/shared/frontmatter.go:78-98 | one field replaces the first header line with its key or goes in just before the fence, which moves by one |
| `Frontmatter.UpsertFrontmatterFields` | packages/shared/frontmatter.go:54-100 | the text is the line-wise edit, a new block, or the source itself; for distinct keys without colon, newline and leading white space its header says every field: the first line with the key is the key, `: ` and a literal that reads as the value |
| `Frontmatter.UpsertSays` | packages/shared/frontmatter.go:54-100 | the same, of every upsert: a decoder that knows nothing of the writer finds each value behind its key in the first line that could set it |
| `Frontmatter.EscapeAllRead` | packages/shared/frontmatter.go:63-94 | decoding what `%q` wrote gives back every value |
| `Frontmatter.ValuesDiffer` | packages/shared/frontmatter.go:63-94 | no two values write the same line |
| `Frontmatter.UpsertCarries` | packages/shared/frontmatter.go:54-100 | an upsert loses nothing of the text it is given: all of it stands at the end, or its body does and every header line that sets none of the keys is in its place |
| `Frontmatter.DocumentRead` | packages/shared/frontmatter.go:14-48 | a text that is opening line, header, fence and body reads as YAML reads that header, with that body |
| `Frontmatter.PlainRead` | packages/shared/frontmatter.go:14-48 | a text without a header reads as itself |
| `Frontmatter.FenceExists` | packages/shared/frontmatter.go:68-79 | whenever the splitter accepts a header, the editor finds a closing line |
| `Frontmatter.UpsertKeepsLines` | packages/shared/frontmatter.go:66-100 | the fence and every line behind it are unchanged; for colon-free keys each header line is unchanged, in place, unless it is the first line that sets one of the keys |
| `Frontmatter.UpsertKeepsBody` | packages/shared/frontmatter.go:54-100 | the body read after the edit is the body read before, byte for byte |
| `Frontmatter.NewBlockBody` | packages/shared/frontmatter.go:58-66 | a created block is read back as written and the body behind it is the whole original source |
| `Frontmatter.UpsertReadable` | packages/shared/frontmatter.go:54-100 | for distinct keys without colon, newline and leading white space, the first header line with each key is the line written for it, whose value `UpsertSays` reads |
| `Frontmatter.UpsertIdempotent` | packages/shared/frontmatter.go:54-100 | for distinct keys without colon and newline, and an edit that YAML accepts, applying the same fields twice equals once if and only if no key starts with white space |
| `Frontmatter.IndentedKeyIsWrittenAgain` | packages/shared/frontmatter.go:80-96 | a key with a leading space is appended again by the second call |
| `Frontmatter.ColonKeyIsOverwritten` | packages/shared/frontmatter.go:83-97 | for the keys `a:b` and `a`, in that order, on a note without frontmatter, the second call overwrites the line of `a:b` |
| `Tokens.WordsAreRuns` | packages/search/index.go:503-521 | the words read are exactly the maximal runs of two or more letters and digits, in order and in lower case |
| `Tokens.Tokenize` | packages/search/index.go:503-521 | the counts are how often each of those words occurs, and nothing else |
| `Tokens.TokenWeights` | packages/search/index.go:39-56 | the token map holds exactly the positive weights: body frequency plus 5 for each of title, tags and aliases that has the token |
| `Tokens.WeightsUnique` | packages/search/index.go:39-56 | a document has one such map |
| `Tokens.DocTokensWeigh` | packages/search/index.go:39-56 | the words of body, title, tags and aliases are exactly the tokens with positive weight |
| `SearchIndex.RunAgrees` | packages/search/index.go:36-84 | after any sequence of Index and Remove, a posting exists exactly for the positive weights of the surviving documents, with that weight, and no posting map is empty |
| `SearchIndex.HistoryIndependent` | packages/search/index.go:36-84 | two histories that leave the same documents leave the same index |
| `SearchIndex.IndexDetermined` | packages/search/index.go:36-84 | the documents alone determine the inverted index |
| `Search.Index.RemoveLocked` | packages/search/index.go:73-84 | the walk over all tokens of the index removes every posting of the path and every map it empties |
| `Search.Index.Add` | packages/search/index.go:36-64 | the index after Index is the old one without the path, plus the document's weights; the invariant is kept |
| `Search.Index.Remove` | packages/search/index.go:67-71 | the path is gone from documents and postings; the invariant is kept |
| `Search.TermScores` | packages/search/index.go:427-444 | each path's score is its exact weight plus half the weights of the tokens the term is a proper prefix of, in whatever order tokens are walked |
| `Search.PostedIsScanned` | packages/search/index.go:427-444 | the score from the postings is the score a scan of the document gives |
| `Search.IntersectScanned` | packages/search/index.go:121-129 | intersecting with the next term's scores gives the documents hit by all terms so far, with the sum |
| `Search.MatchesTags` | packages/search/index.go:446-460 | every tag filter is met by a tag or a parent of a tag |
| `Search.MatchesPath` | packages/search/index.go:462-470 | every path filter occurs in the lower-cased path |
| `Search.MatchesProperties` | packages/search/index.go:217-289 | every property filter is met by the frontmatter value, over nested lists; what each operator meets is said by `Matching` |
| `Search.SortHits` | packages/search/index.go:149-154 | the same hits, strictly by score descending and then path ascending |
| `Search.RankingUnique` | packages/search/index.go:149-157 | there is one ranking, so the answer does not depend on map order |
| `Search.Index.Search` | packages/search/index.go:88-160 | the first `limit` hits of the one ranking of exactly the documents a scan finds, with the scan's scores, by score descending and then path ascending |
| `Search.ClickedNotesFound` | packages/search/index.go:88-160 | for every key and text: every note that shows the text under the key is found by the query printed for them if and only if that query asks for nothing but the property |
| `Search.ClickFindsExactly` | packages/search/index.go:217-259 | where the printed query is one field or its key reads: every such note is found if and only if the key reads, the text has no quote, and the key is in lower case |
| `Search.StrayQueryFindsAll` | packages/search/index.go:94-101 | the query printed for the key `a path: prop:` does not read back and still finds every note |
| `Search.ClickedNoteFound` | packages/search/index.go:217-259 | when the printed query reads back, it finds the clicked note if and only if the key is in lower case, or the note has its lower-case form with a matching value |
| `Matching.NumbersCompare` | packages/search/index.go:261-286 | for every note with a scalar under the key: where its lower-cased text and the value are numbers x and y, the one-filter request finds it if and only if x > y, x >= y, x < y, x <= y |
| `Matching.TextsCompare` | packages/search/index.go:261-286 | where one of them is no number, the same by the byte order of the two texts, said as their first difference |
| `Matching.ComparisonsComplete` | packages/search/index.go:261-286 | `<` and `>=` exclude and complete each other, and so do `>` and `<=` |
| `Matching.TypedComparison` | packages/search/index.go:88-286 | the query typed for a key that reads and a value without quotes finds what that filter finds |
| `Matching.EqualOrPart` | packages/search/index.go:251-255 | `=` finds the notes whose lower-cased text is the value, `:` those that have it as a part |
| `Matching.SomeItemDoes` | packages/search/index.go:217-249 | a note with a list is found if and only if one with some item in its place is; an empty value only by an empty `=`; a note without the key never |
| `Matching.TagFinds` | packages/search/index.go:446-460 | a tag filter finds the notes with that tag in any case, or one below it |
| `Matching.PathFinds` | packages/search/index.go:462-470 | a path filter finds the notes whose lower-cased path has it as a part |
| `Matching.TermsFind` | packages/search/index.go:108-131 | terms find the notes that have all of them as words, the last one as the beginning of a word |
| `Matching.FoundByAll` | packages/search/index.go:88-160 | a request finds the notes that each of its parts would find |
| `Matching.NoteWords` | packages/search/index.go:36-56 | the words of a note are those of its body, title, tags and aliases |
| `Matching.ExactCountsTwice` | packages/search/index.go:427-444 | a note scores twice for the word itself what it scores once for a longer word (`Matching.LongerCountsOnce`) |
| `Matching.LongerCountsOnce` | packages/search/index.go:434-442 | a longer word alone gives its weight, in half points |
| `Matching.TitleWorthFive` | packages/search/index.go:38-40 | a word in the title weighs as much as five times in the body |
| `Matching.RequestAppends` | packages/search/index.go:94-106 | fields ask for their parts one after the other |
| `Matching.FieldAsks` | packages/search/index.go:94-106 | what each kind of field asks for: the text behind `tag:` or `path:`, the filter behind `prop:`, or a term |
| `Matching.WordTaken` | packages/search/index.go:523-530 | a term is in lower case and without anything but letters and digits |
| `Matching.TypingFinds` | packages/search/index.go:88-131 | typing any word of a note, in any case, finds the note from the second character on |
| `Query.SplitQuery` | packages/search/index.go:166-190 | the loop over the query yields the fields of the stepwise reader that the round trips are proved about |
| `Query.FeedDropsQuotes` | packages/search/index.go:174-186 | no field ever holds a double quote |
| `Query.SpaceSplits` | packages/search/index.go:166-188 | white space outside quotes splits whatever stands on either side of it |
| `Query.OneFieldOf` | packages/search/index.go:166-188 | text without white space is one field, in lower case, and so is any text in quotes |
| `Query.ParsePropertyFilter` | packages/search/index.go:204-215 | a filter is the one cut of the text at the operator whose first occurrence is the least behind the first character, the longer one on a tie; none exactly when every operator is missing or starts the text |
| `Query.ParsedExactly` | packages/search/index.go:204-215 | for every text and filter: the parser yields the filter if and only if the text is cut that way, and there is only one cut |
| `Query.LeadingOperatorHides` | packages/search/index.go:204-215 | `=a=b` has no filter, although `=` stands behind `=a` |
| `Query.ParseBack` | packages/search/index.go:195-215 | for every key, value and operator: they are read back if and only if no operator is found first inside the key and the value does not turn `>` or `<` into `>=` or `<=` |
| `Query.PlainKeyCuts` | packages/search/index.go:195-215 | a non-empty key free of operator characters can stand before every operator |
| `Query.SuggestionRoundTrip` | apps/web/src/components/SearchDialog.tsx:46-56 | for every key, value and operator: a suggested filter reads back as one filter, lower-cased, if and only if the key reads, the value has no quote and does not lengthen the operator |
| `Query.QuotesAreLost` | packages/search/index.go:166-190 | no query reads as a filter whose key or value has a quote |
| `Query.PropertyQueryRoundTrip` | apps/web/src/components/SearchDialog.tsx:10-12 | for every key and value: the printed equality filter reads back if and only if the key reads and the value has no quote |
| `Query.KeysThatDoNotRead` | apps/web/src/pages/NotePage.tsx:465 | the queries printed for the keys `due date` and `a:b` do not read back |
| `Query.LastToken` | apps/web/src/components/SearchDialog.tsx:24-32 | head and token make up the query, split where the token starts |
| `Query.TokenStartShape` | apps/web/src/components/SearchDialog.tsx:24-32 | the token starts behind a space outside quotes, or where the text does, and has no such space in it |
| `Query.CompletionKeepsTheRest` | apps/web/src/components/SearchDialog.tsx:97-101 | taking a suggestion replaces only the token being typed: the fields before it are read as before |
| `Links.LinkIndex.RemoveLocked` | packages/links/index.go:70-85 | the path leaves files, links, both name keys and all aliases, where they point to it |
| `Links.LinkIndex.Update` | packages/links/index.go:39-53 | the new state is the old one without the path, plus its name, aliases and links; what then resolves is said by `NameReaches`, `AliasReaches` and `ReachedOnlySo` |
| `Links.LinkIndex.RegisterFile` | packages/links/index.go:56-61 | the path is a file under its full-name key, everything else unchanged |
| `Links.RunLive` | packages/links/index.go:38-85 | after any run every name, alias and link source belongs to an indexed file, and every name key is one of the two key forms of its file |
| `Links.ResolvesOnlyToLiveFiles` | packages/links/index.go:98-121 | after any run, every resolved path is indexed and every indexed path resolves to itself |
| `Links.NameReaches` | packages/links/index.go:98-121 | right after Update(p), every target that gives p's name, or a folder and name p ends in, in any case, with `.md` or without, resolves to p, unless an indexed path is written just so |
| `Links.WholeNameReaches` | packages/links/index.go:115-117 | a note whose name itself ends in `.md` is reached by it when no note without that ending is known |
| `Links.FileReached` | packages/links/index.go:56-121 | right after RegisterFile(p), its whole file name, or a folder and file name it ends in, resolves to p in any case |
| `Links.MarkdownFileReached` | packages/links/index.go:108-117 | a registered file whose name ends in `.md` is reached when no name without it is known |
| `Links.AliasReaches` | packages/links/index.go:38-121 | right after Update(p), each alias in any case resolves to p unless an indexed path or a name takes the target |
| `Links.ReachedOnlySo` | packages/links/index.go:98-121 | right after Update(p), what resolves to p is p, p without `.md`, its name with a folder it ends in or none, or one of its aliases |
| `Links.LinksStand` | packages/links/index.go:38-85 | a change leaves the links of every other note alone; an update sets those of its note, a removal drops them |
| `Links.NamedLinkCounts` | packages/links/index.go:124-158 | once a note is updated, every other note with a link to its name is a backlink, and that link is not broken |
| `Links.BrokenExactly` | packages/links/index.go:143-158 | the broken links of a note are its links with a target that reaches nothing |
| `Links.RemovedNeverResolves` | packages/links/index.go:64-85 | right after Remove(p), no target by path, name or alias resolves to p |
| `Links.Partition` | packages/links/index.go:161-177 | every link is exactly one of fragment-only, broken and resolved |
| `Links.Conservation` | packages/links/index.go:143-177 | the broken count equals the lengths in BrokenLinks, and the total equals fragments plus broken plus resolved |
| `Links.LinkIndex.Backlinks` | packages/links/index.go:124-140 | each other note with a link resolving to p is listed exactly once and nothing else |
| `Links.LinkIndex.BrokenLinks` | packages/links/index.go:143-158 | exactly the notes with broken links, each with those links in order |
| `Links.LinkIndex.Stats` | packages/links/index.go:161-177 | its own loop and counters give the total and broken sums over all notes, in whatever order they are walked |
| `Hub.Loop.Fan` | packages/websocket/hub.go:205-210 | sending to the clients one by one, in any order, is sending to all that the access function allows |
| `Hub.SendToOneMore` | packages/websocket/hub.go:206-210 | one more trySend is one more receiver, whichever comes first |
| `Hub.Loop.Notify` | packages/websocket/hub.go:145-172 | the presence notice names exactly the viewers and editors of the path and goes to the allowed clients |
| `Hub.Loop.RemoveFromPresence` | packages/websocket/hub.go:131-143 | the client is gone from every path, and the affected paths are returned once each |
| `Hub.Loop.Unregister` | packages/websocket/hub.go:178-185 | a connected client is closed, leaves presence, and every affected path is notified; another is ignored |
| `Hub.Loop.Receive` | packages/websocket/hub.go:186-204 | presence is set or taken away and the path notified; other messages change nothing |
| `Hub.RunInvariant` | packages/websocket/hub.go:126-224 | over every run nothing is sent on or closed twice on a closed channel, and each client got a prefix of its due messages |
| `Hub.DeliveryWithoutGaps` | packages/websocket/hub.go:126-224 | what a connected client took plus its queue is exactly, in order, what was sent since it registered and it may see; a channel is closed at most once |
| `HubPresence.SentWhatMaySee` | packages/websocket/hub.go:119-224 | over every run a client is sent nothing the access function refuses it, and while it is connected all that it allows of what was sent since it came in |
| `HubPresence.StepSends` | packages/websocket/hub.go:174-213 | what each step sends: its event, the notice of its path, the notices of the paths a leaving client was on, or nothing |
| `HubPresence.PresentAsSaid` | packages/websocket/hub.go:126-204 | over every run a client is present on a path exactly as it last said, until it leaves while connected |
| `HubPresence.NoticeNames` | packages/websocket/hub.go:145-172 | a notice names as editors exactly the users who last said they were editing, as viewers those who last said they were viewing |
| `HubPresence.LeavesExactly` | packages/websocket/hub.go:178-185 | a client that unregisters is off every path if and only if it was still connected, or on none |
| `HubPresence.StaysOnShow` | packages/websocket/hub.go:178-224 | for every client and path there is a run in which it is cut off as slow, unregisters, and is still shown as viewing the path |
| `Slices.Compact` | packages/api/ratelimit.go:44-58 | filtering a slice within its own backing array keeps exactly the matching elements in order |
| `LoginLimiter.Limiter.Prune` | packages/api/ratelimit.go:44-58 | the key keeps exactly its failures inside the window, in order, or disappears; other keys are untouched |
| `LoginLimiter.Limiter.Allow` | packages/api/ratelimit.go:23-28 | yes exactly when fewer than max failures are inside the window |
| `LoginLimiter.Limiter.Fail` | packages/api/ratelimit.go:30-35 | the pruned failures with the new one appended, in place or in a new array |
| `LoginLimiter.Limiter.Reset` | packages/api/ratelimit.go:37-42 | the key is forgotten, the others are not |
| `LoginLimiter.RunInvariant` | packages/api/ratelimit.go:23-58 | over every run the limiter remembers all failures still inside the window, and a full window leaves no room for attempts in flight |
| `LoginLimiter.WindowBound` | packages/api/handlers.go:626-664 | with at most k attempts per key in flight, no window holds more than max + k - 1 failures since the last Reset; max when sequential |
| `LoginLimiter.LetInExactly` | packages/api/ratelimit.go:23-58 | over every legal run and for every later instant, an attempt is let in if and only if the window that ends then holds fewer than max failures of the key since its last Reset |
| `LoginLimiter.ForgivenAfterWindow` | packages/api/ratelimit.go:23-58 | a key without a failure in the last window is let in, however often it failed before |
| `LoginLimiter.CountsCalls` | packages/api/ratelimit.go:30-42 | the failures counted are the Fail calls behind the last Reset of the key |
| `LoginLimiter.BoundReached` | packages/api/handlers.go:626-664 | the bound is attained for every max, k and window |
| `Repository.LabelRoundTrip` | packages/history/git.go:117-125 | the first line of a recorded message is read as a delete of the path exactly when the action was delete |
| `Repository.SourceRoundTrip` | packages/history/git.go:319-340 | the source revision written in a restore message is the one read back |
| `Repository.FileAtCommit` | packages/history/git.go:215-229 | a hash names its commit: the file at a revision is what that commit's tree holds |
| `Trash.RecordSound` | packages/history/trash.go:62-79 | a recording keeps every entry a true last deletion, listed once |
| `Trash.RecordComplete` | packages/history/trash.go:62-79 | a recording loses no deletion |
| `Trash.TrashSound` | packages/history/trash.go:62-128 | after any run of edits, recordings, listings, purges and re-opens, each entry's path is unique, absent from HEAD, and present in the tree at restoreRev |
| `Trash.LeavesExactly` | packages/history/trash.go:88-233 | an entry is left by a listing if and only if its file is not on disk, by a purge if it is not named, by a re-open if its file is not on disk and its content is there to restore; nothing else changes |
| `Trash.FreshAgrees` | packages/history/git.go:45-85 | a fresh repository has committed what is on disk and lists nothing |
| `Trash.TrashExact` | packages/history/trash.go:62-79 | without purges and disturbed listings, the index holds exactly the last deletions of all paths that are gone |
| `Trash.ScanLists` | packages/history/trash.go:138-182 | the log scan lists exactly the last deletions within its 2000-commit horizon whose path was not purged |
| `Trash.IndexRefinesScan` | packages/history/trash.go:62-182 | the scan is the index cut at the horizon and without purged paths; within the horizon they list the same |
| `Trash.RunRefinesScan` | packages/history/trash.go:62-182 | from a fresh repository over any honest run, index and scan list the same (path, restoreRev, deleteRev) |
| `GitHistory.Git.RecordPath` | packages/history/git.go:87-141 | one path is committed if it differs from HEAD, with the message and the trash entry of that commit; nothing otherwise, or when not managed |
| `GitHistory.Git.UpdateTrashIndex` | packages/history/trash.go:62-79 | the path's old entry goes, the new one comes last if it is a delete |
| `GitHistory.Git.ScanDeleted` | packages/history/trash.go:138-182 | the loop with its `seen` map equals the scan function |
| `GitHistory.Git.InitTrashIndex` | packages/history/trash.go:81-109 | a missing index is the scan; an existing one keeps exactly its restorable entries |
| `GitHistory.Git.Deleted` | packages/history/trash.go:185-210 | the index keeps exactly the entries whose file is not on disk; they are listed newest first, all of them or `limit`, and none that is missing is newer than one listed |
| `GitHistory.Git.PurgeDeleted` | packages/history/trash.go:215-233 | exactly the named paths leave the index |
| `GitHistory.NewestFirst` | packages/history/trash.go:203 | a permutation ordered by time, newest first |
| `Naming.FileNameIsSafe` | packages/core/service.go:279 | a file name made from any title has no path separator and no other character that file systems refuse |
| `Naming.RunBecomesDash` | packages/core/service.go:254-279 | each run of unsafe characters becomes one dash, and the text before it stays |
| `Naming.TriedInFolder` | packages/core/service.go:283-287 | in a folder without detours the paths tried are the name there, and then the name with each number behind it |
| `Naming.CandidatesInjective` | packages/core/service.go:283-287 | two numbered candidates are the same place in the vault only for the same number |
| `Naming.TakenBound` | packages/core/service.go:285-287 | at most one more candidate than there are vault entries can be taken |
| `Naming.FreePath` | packages/core/service.go:283-287 | the loop ends, within one more iteration than there are entries, on the first candidate that does not exist |
| `Paths.NormalStaysInside` | packages/core/service.go:156-165 | a normalized path is empty, or no element of it is empty, a dot or `..`, and it ends in `.md` |
| `Paths.NormalKeepsPlain` | packages/core/service.go:156-165 | a path without detours and outer white space stays as it is, but for a missing ending |
| `Paths.DetourDrops` | packages/core/service.go:157 | an element and the `..` behind it might as well not be there |
| `Paths.BlankDrops` | packages/core/service.go:157 | so might an empty element or a dot |
| `Numerals.DecimalValue` | packages/core/service.go:286 | the digits of a number stand for it |
| `NoteService.Service.SaveNote` | packages/core/service.go:209-252 | the whole new state: conflict on a foreign base, else the stamped text on disk and one recording |
| `NoteService.SavedText` | packages/core/service.go:209-252 | a successful save leaves, at its path alone, the very text that was sent, or, attributed, that text carried on under a header that says when and by whom; HEAD holds the same, committed under the author's name |
| `NoteService.SaveOutcome` | packages/core/service.go:209-231 | a save goes through exactly when the path is not empty and no other version than its base is there; else nothing changes, and the conflict names that version |
| `NoteService.Service.DeleteNote` | packages/core/service.go:349-364 | the whole new state: not found, else the file gone and one recording |
| `NoteService.DeleteOutcome` | packages/core/service.go:349-364 | the file goes on disk and in HEAD and nothing else does; without a file nothing changes |
| `NoteService.Service.RestoreNote` | packages/core/service.go:371-414 | the whole new state: unknown revision, unchanged, or snapshot, content and restore recording |
| `NoteService.RestoreOutcome` | packages/core/service.go:371-414 | refused exactly without history, revision or difference; else the revision's content is at the path, on disk and in HEAD, and nothing else changed |
| `NoteService.Service.RestoreDeleted` | packages/core/service.go:426-441 | the listing is healed, then the path's own entry is restored, or nothing is |
| `NoteService.Service.CreateNote` | packages/core/service.go:274-330 | for every folder, the note lands at the first free candidate, no existing file changes, and a failed create changes nothing; the recording is made at its path |
| `NoteService.PreparedText` | packages/core/service.go:307-320 | what is written has the given text, cut of its own header, at its end, begins with the default header where that is due, and says by whom where it is attributed |
| `NoteService.RestoreLosesNothing` | packages/core/service.go:388-405 | the parent of the restore commit holds exactly the displaced content, unrecorded edits included; the commit holds the restored content |
| `NoteService.RestoreUnchanged` | packages/core/service.go:390-398 | the call says unchanged exactly when the contents match, and then disk, log and trash are as before |
| `NoteService.DeleteWaits` | packages/core/service.go:349-364 | a deleted note has a trash entry from which its content can be restored |
| `NoteService.RunWaits` | packages/history/trash.go:62-128 | operations on other paths, listings and re-opens leave that entry restorable |
| `NoteService.RestoreWaiting` | packages/core/service.go:426-441 | restoring it brings the content back on disk and in HEAD and removes the entry |
| `NoteService.RestoreEnds` | packages/core/service.go:426-441 | the call has an outcome in every state, so the statements about it are not empty |
| `NoteService.RestoreNamesSource` | packages/history/git.go:319-340 | the restore commit names its source revision |
| `NoteService.DeleteRestoreRoundTrip` | packages/core/service.go:349-441 | delete, any run elsewhere, restore: the content is back on disk and in HEAD, from the entry's revision, and no entry is left |
| `NoteService.RestorableIffNormal` | packages/core/service.go:371-441 | a waiting path is restored if and only if normalizing leaves its name alone |
| `NoteService.AttachmentIsNotNormal` | packages/core/service.go:156-165 | every plain name without the markdown ending is looked for under another name |
| `NoteService.AttachmentIsLost` | packages/core/service.go:426-441 | an attachment whose removal the file watcher reports waits in the trash, and RestoreDeleted does not bring it back |
| `NoteService.ImageIsAttachment` | packages/core/service.go:156-170 | `img.png` is such a name |
| `ConcurrentVault.RunSettled` | packages/core/service.go:137-146 | in every reachable state each thread inside a call owns its path's lock, and a free path is the same on disk and in HEAD |
| `ConcurrentVault.DiskAndHeadAgree` | packages/core/service.go:209-252 | at every interleaving, a path whose lock is free has the same content or absence on disk and in HEAD |
| `ConcurrentVault.MutualExclusion` | packages/core/service.go:137-146 | two threads are never inside calls on one path |
| `ConcurrentVault.NoLostUpdate` | packages/core/service.go:209-252 | every write displaces the version right before it, and a based save only the version it was based on |
| `ConcurrentVault.SameBaseTwice` | packages/core/service.go:216-233 | two saves from one base both succeed on an existing note only if that content was put back in between |
| `ConcurrentVault.NothingIsLost` | packages/core/service.go:388-405 | every displaced content is in some commit |
| `ConcurrentVault.RunSound` | packages/history/trash.go:62-79 | at every interleaving each trash entry is the one last deletion of its path, absent from HEAD and restorable |
| `ConcurrentVault.ConflictChangesNothing` | packages/core/service.go:216-233 | from the conflict on, no step of the refused call changes file, log or trash index, whatever others do |
| `ConcurrentVault.SaveLands` | packages/core/service.go:233-244 | over every interleaving the very text a save was sent is what its step writes, at its path alone, what still stands there when it records it, and what HEAD holds then |
| `ConcurrentVault.RestoreAndDeleteLand` | packages/core/service.go:349-414 | the same for what a restore's revision holds, and for the absence a delete leaves |
| `ConcurrentVault.AloneSave` | packages/core/service.go:209-252 | the steps of a save taken without a pause do what SaveNote does |
| `ConcurrentVault.AloneSaveLands` | packages/core/service.go:209-252 | those steps leave the text that was sent on disk and in HEAD, carried on under its stamp where it is attributed |
| `ConcurrentVault.AloneDelete` | packages/core/service.go:349-364 | the same for DeleteNote |
| `ConcurrentVault.AloneRestore` | packages/core/service.go:371-414 | the same for RestoreNote |
| `HistoryLock.RunKeepsLock` | packages/core/service.go:89-115 | in every reachable state read holds add up, writers exclude readers, and whoever uses a backend uses the attached one |
| `HistoryLock.WriterIsAlone` | packages/core/service.go:89-115 | nobody reads or writes beside a thread inside the write lock |
| `HistoryLock.QuietAfterDetach` | packages/core/service.go:99-115 | from the end of DetachHistory(h) until h is set again, no thread records on h or starts to, and no commit is made on it, late timers included |
| `HistoryLock.RunKeepsPaths` | packages/core/service.go:137-146 | in every reachable state a path's lock is held by exactly the thread inside its call |
| `HistoryLock.WriteLockReachable` | packages/core/service.go:371-414 | an announced writer can still get in if and only if no RestoreNote holding the read lock is bound to ask for it again or waits for the path of an edit that is bound to ask for it |
| `HistoryLock.RestoreMeetsDetach` | packages/core/service.go:371-406 | a run in which a restore asks again behind an announced detach |
| `HistoryLock.EditMeetsRestore` | packages/core/service.go:209-244 | a run in which a restore waits for a save that waits behind an announced detach |
| `HistoryLock.DeadlocksHappen` | packages/core/service.go:371-406 | both are reached from the start, for every backend and path, and the detach never gets in |
| `PluginManager.NoteHistory.DetachHistory` | packages/core/service.go:99-108 | only the given backend is detached |
| `PluginManager.HistoryPlugin.Enable` | packages/plugins/builtin/git_history.go:42-65 | refused without change on a bad mode, debounce or repository; otherwise the new backend is owned and attached |
| `PluginManager.HistoryPlugin.Disable` | packages/plugins/builtin/git_history.go:67-73 | the owned backend is detached and forgotten |
| `PluginManager.Manager.SetActiveLocked` | packages/plugins/manager.go:236-254 | the whole new state of map, plugin and service; an error changes nothing |
| `PluginManager.Manager.SetEnabled` | packages/plugins/manager.go:204-213 | the plugin with the id is switched, an unknown id is an error |
| `PluginManager.Manager.Restart` | packages/plugins/manager.go:218-234 | an active plugin goes off and on again, an inactive one stays off |
| `PluginManager.Manager.CloseAll` | packages/plugins/manager.go:257-272 | both loops over all plugins, as one function of the old state |
| `PluginManager.RunAgrees` | packages/plugins/manager.go:204-272 | after any sequence of calls the service's history, the plugin's field and the active flag say the same |
| `PluginManager.LastCallDecides` | packages/plugins/manager.go:204-272 | then off detaches, on succeeds exactly when already on or usable, and CloseAll leaves nothing active or attached |
| `PluginManager.SwitchOnOutcome` | packages/plugins/builtin/git_history.go:42-65 | after any sequence of calls: which settings are refused, and that else the backend just opened is attached with its debounce; a restart attaches the new backend, or none |
| `PluginManager.PlainOnlyNoted` | packages/plugins/manager.go:236-241 | a plugin that cannot be toggled is only noted as on or off |
| `PluginLifecycle.RunTied` | packages/plugins/manager.go:204-272 | over every interleaving, Closes included, the plugin's field is empty or names the attached backend, but for the moment an Enable takes, and what it names is active |
| `PluginLifecycle.OrphanedExactly` | packages/plugins/manager.go:266-271 | a step leaves an attached backend forgotten if and only if it is a Close's clearing of the field while one is attached, or an Enable's attaching after a Close has cleared the field |
| `PluginLifecycle.RunUnorphaned` | packages/plugins/manager.go:204-272 | a run without these two steps never forgets an attached backend |
| `PluginLifecycle.SwitchOffExactly` | packages/plugins/builtin/git_history.go:67-73 | switching off an active plugin ends with nothing attached if and only if the field was set when Disable looked at it for the last time, or nothing was attached then, or a Close has detached that backend in the meantime |
| `PluginLifecycle.TestThenLook` | packages/plugins/builtin/git_history.go:68-70 | every such call comes to a last look: the test that finds the field empty, or the reading behind a test that finds it set |
| `PluginLifecycle.FieldSetYetAttached` | packages/plugins/builtin/git_history.go:68-70 | a run in which the field is set at the test, a Close clears it before it is passed on, and the backend stays attached |
| `PluginLifecycle.FieldEmptyYetOff` | packages/plugins/builtin/git_history.go:67-73 | a run in which the field is empty at the test and nothing is attached, because a Close has done its work |
| `PluginLifecycle.EndedIsOff` | packages/plugins/manager.go:236-254 | when any switching off is done, nothing is attached or about to be if and only if no backend is forgotten |
| `PluginLifecycle.OffIsQuiet` | packages/plugins/builtin/git_history.go:67-73 | after a switching off that left no backend behind, until the next Enable opens one, nothing is attached, recorded or committed |
| `PluginLifecycle.QuietExactly` | packages/plugins/builtin/git_history.go:67-73 | with no writer announced, no commit is made until the next Enable if and only if no backend was left behind |
| `PluginLifecycle.CloseAgainstEnable` | packages/plugins/manager.go:256-272 | a run in which Close meets an Enable, switching off succeeds, and the next save is still committed |
| `PluginLifecycle.SwitchAlone` | packages/plugins/manager.go:204-254 | the interleaved steps taken without a pause do what the manager's method does |
| `PluginLifecycle.RestartAlone` | packages/plugins/manager.go:218-234 | the same for Restart of an active plugin |
| `PluginLifecycle.CloseAllAlone` | packages/plugins/manager.go:257-272 | the same for CloseAll with the history active |

## Left out

- Text beyond ASCII: Unicode letters, case folding and `%q` escapes of other characters; JavaScript's and Go's white space are the same on ASCII.
- YAML, markdown and link parsing (`ParseLinks`, alias extraction), glob matching, line diffs, JWT and bcrypt: inputs or not part of this model.
- `NaN` and infinities of `strconv.ParseFloat`, and a negative search limit, which the program would panic on.
- `Search.Index.Search`: result titles, tags and snippets, and the `Properties` aggregation, which only copy or count.
- `NoteService.Service.SaveNote`: indexing, note metadata, events, and who last changed a conflicting note, which only add calls to other modelled or unmodelled parts.
- `NoteService.Service.CreateNote`: what go-git makes of recording a path with a leading slash, which a configured folder can give the numbered candidates; and template rendering, whose result is an input.
- `Search.ClickedNotesFound`: the text the web application shows for a value or a list item is taken to be the text the index compares; how each prints dates, numbers and lists inside lists is not modelled.
- `Links.LinkIndex.Update`: which of two notes with the same base name or alias a name resolves to is claimed only right after one of them is updated, because removing the winner does not bring the other back.
- `Hub.DeliveryWithoutGaps`: messages dropped before they reach the loop, the read and write pumps, and JSON.
- `HistoryLock.WriteLockReachable`: whether a writer does get in, which needs a fair scheduler; it says whether it still can, for some outcome of what the calls have not decided yet.
- `PluginLifecycle.QuietExactly`: states in which a Close's detach is announced while the switching off ends; `PluginLifecycle.OffIsQuiet` covers them in the one direction.
- `ConcurrentVault.DiskAndHeadAgree`: writers that bypass the path locks (external edits, uploads, `CreateNote`), directories, and failed writes or recordings. A `Record` is one step; in the program it compares the file with HEAD, stages it again and commits under its own mutex, and a recording of the file watcher, which does not hold the path lock, can have the lock's holder place a file in between.
- `Trash.RunRefinesScan`: an index file lost in the middle of a run; `Trash.IndexRefinesScan` says what the migration scan then finds.
- Timers of external edits: a timer that fires is a recording that may start at any time, so arming and stopping them is not modelled.
- `PluginLifecycle.SwitchOffExactly`: the plugin's field is shared without a lock; each read and write of it is taken as a single step that sees a whole value.
- HTTP handlers, routing, uploads, the file watcher loop, CLI, single sign-on, access rules, login codes, settings overlay, templates and the event bus: plumbing or short lookups.
