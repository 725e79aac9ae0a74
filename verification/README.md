# Verified model of the DNS filter backend

This project models, in Dafny 4.11, the parts of the DNS filtering server where fast or
stateful code has a simple meaning it must keep, and proves that it does:

- **The filter rule engine.** `RuleSyntax` is the line parser, `RuleSet` the index of hash sets
  and compiled wildcard sets, `Wildcard` the compiler from `*` patterns to regular expressions,
  and `Regex` the meaning the engine gives to the text it emits. `RuleLaws` holds the laws of the
  verdict. `Subscription` and `SubscriptionLaws` cover the normaliser that rewrites list lines
  before the same parser reads them again. `DomainSuffix`, `AppCatalog` and `RuleStats` are the
  three forms of "the domain or one of its parents".
- **The query-log writer.** `LogWriter` is the event loop with batching, anomaly window and
  pruning; `BatchInsert` and `SqlText` are the INSERT statements it sends.
- **Upstream selection.** `UpstreamPool` is pool construction, ordering and failover; `PoolAnswers`
  puts the resolver's handling of failed lookups underneath it.
- **SQL construction and paging.** `QueryBuilder`, `AdvancedQuery`, `ListQuery`, `CursorPaging`.
- **Serving.** `DnsPipeline` is the decision pipeline with its answer cache, one query after
  another; `ConcurrentServe` lets the cache steps of many queries interleave; `TcpServer` is the TCP
  connection accounting as a state machine.
- **Text formats.** `Csv`, `RuleTransfer` and `UrlParse`; `Text` and `Decimal` are shared helpers.
- **Failing inputs.** `FailingInputs` holds one concrete input for properties that fail.

Verify everything with `dafny verify dfyconfig.toml`.

## How the code is modelled

- Letters, digits, case folding and blanks are the ASCII ones. Any other character counts as a
  symbol, which is what it is for the code unless it is a letter, digit or blank outside ASCII.
- Clocks, shuffles, random ids, socket reads, database results, address parsing, name lookups and
  message encoding are inputs. The only thing assumed of the message encoder is that its output is
  at least twelve bytes long and starts with the message id. Whether a pattern list is within the
  size limit of `RegexSet` is an input too; whether each pattern parses is modelled.
- Times in the query log are integers, compared as the database compares them.
- A cache entry may vanish at any moment; nothing else is assumed of the cache library.
- Objects the code updates in place are classes; each has a ghost history or a specification
  function, and the laws are proved about those. The TCP tasks, and the queries in
  `ConcurrentServe`, run concurrently, so they are state machines over single atomic steps and any
  interleaving. `DnsPipeline.Serve` runs whole queries one at a time.
- The rendered RFC 3339 timestamp is taken to hold no `$` in the log query and no line feed in the
  rule export.
- Integers are unbounded except the 64-bit product in the `elapsed_ms` filter, which wraps.

Where the code and its comments disagree, the code is followed:

- `*.example.com` is documented as blocking subdomains only; it blocks `example.com` as well
  (`Subscription.SubdomainLine`).
- A comment promises `@@domain`; the parser accepts exceptions only with `@@|` or `@@||`.
- The writer's header speaks of batches of 100 and one second; the constants are 500 and 2 s.

Properties one would expect that do not hold of the code, with the exact condition under which
they do:

- The wildcard compiler escapes every symbol. The regex engine (version 1.12.3 in `Cargo.lock`) reads
  an escaped angle bracket as a word boundary and refuses an escaped symbol outside ASCII. A pattern
  keeps its meaning exactly when it is ASCII and holds no angle bracket
  (`Wildcard.CompilerPreservesMeaning`).
- Adding a block rule can unblock names: a pattern the engine refuses silences all block wildcards, and
  exactly the names that only wildcards blocked become unmatched (`RuleLaws.BlockLineMonotone`,
  `RuleLaws.AskAround`, `FailingInputs.RejectedLine`).
- A time range is measured from the clock at each request, and rows are deleted in bulk, so following
  cursors can miss rows that matched at the start. It misses none exactly when each row is still in
  the table, and in range if a range is given, when its page is fetched
  (`CursorPaging.FollowInRange`, `CursorPaging.MovingRangeMisses`).
- Failover does not pass over an upstream whose lookup failed: the resolver turns the failure into a
  SERVFAIL response, which is sent and cached for 300 seconds. Only a response that cannot be encoded
  moves on, so the node that answers is the one the strategy puts first among those that can encode
  (`PoolAnswers.ResolveThrough`, `PoolAnswers.ResolveAndStore`, `FailingInputs.FailedNodeAnswers`).
- The list normaliser drops any line with a cosmetic mark (`##`, `#@#`, `#%#`), even one inside
  the options of a rule the engine would apply. A rule line keeps its meaning exactly when it holds
  none (`Subscription.NormalisationKeepsMeaning`).
- Wildcards in group rules never match, because group rule sets are not compiled. A group gives a name
  the verdict of its compiled rules exactly when a plain rule allows the name, or no rule at all
  allows it and either a plain rule blocks it or none does (`RuleLaws.AskGroup`,
  `RuleLaws.GroupVerdict`, `FailingInputs.GroupLineInert`).
- The hosts normaliser does not look at the first word of a line. It keeps the meaning of a line
  exactly when the line is no `!` comment, its first word is an address and the name does not end in
  `.local` (`Subscription.HostsNormalisation`, `FailingInputs.NoAddressBlocked`).
- Hit statistics of wildcard rules do not count subdomains of matching names that the engine
  blocks (`RuleStats.WildcardLineHits`, `FailingInputs.SubdomainNotCounted`).
- Hit statistics keep one count per lower-cased name, so a count logged in another letter case is
  overwritten. The count of a rule is what the engine blocked for it exactly when no name it covers
  was logged in two letter cases (`RuleStats.TotalsAgree`, `FailingInputs.TwoCasesMiscounted`).
- A comment in the writer promises an alert for fifty blocked queries within a minute. There need not
  be one: an alert is raised exactly at the fiftieth since the window opened, and a burst across the
  end of a window is split (`LogWriter.AlertsExactly`, `LogWriter.StraddlingBurst`).
- Placeholders and bound values line up exactly when every time comparison, `status` and `qtype`
  filter holds strings or numbers; the other filters bind text or integers of their own
  (`AdvancedQuery.ListAdvanced`, `AdvancedQuery.BooleanMisaligns`).
- Group rewrites are looked up with the name as received. A name gets the rewrite of its lower-case
  form exactly when it is in lower case, or the group has none for it, or the global rewrite is the
  same (`DnsPipeline.GroupRewriteCase`).
- The generic URL parser and the resolver's parsers agree exactly where the host is not empty; the
  generic one accepts an empty host (`UrlParse.GenericGrammar`, `UrlParse.EmptyHostAccepted`).
- Exported text reads back to the enabled rules exactly when each of them is one trimmed, non-empty
  line that does not start with `#`, and every further line of a comment or a disabled rule is blank
  or does (`RuleTransfer.TextRoundTrip`, `FailingInputs.CommentBecomesRule`).

## Model

| member | source | states |
|---|---|---|
| DomainSuffix.MatchesSet | src/dns/rules.rs:225-238 | the walk that cuts one leading label at a time hits exactly when some entry equals the domain or is one of its parents |
| DomainSuffix.CoversByLabels | src/api/handlers/rule_stats.rs:140-143 | "equal or ends with dot plus entry" is the same relation as "the last labels of the name are the labels of the entry" |
| Wildcard.WildcardToRegex | src/dns/rules.rs:338-356 | the engine takes the text written exactly when the pattern is ASCII, and it matches exactly the names the pattern matches, whatever the letter case, if and only if the pattern also holds no angle bracket |
| Wildcard.CompilerPreservesMeaning | src/dns/rules.rs:335-356 | the emitted expression parses and, matched unanchored, is on every name glob matching with each star one or more non-dot characters, if and only if the pattern is ASCII and holds no angle bracket |
| Wildcard.AngledDiffers | src/dns/rules.rs:348-352 | for every pattern with an angle bracket, a name on which engine and pattern disagree: the escaped bracket is a word boundary to the engine |
| Wildcard.EngineFolds | src/dns/rules.rs:340-340 | the compiled pattern ignores the letter case of the name, angle brackets or not |
| Wildcard.GlobPairsLabels | src/dns/rules.rs:335-345 | a match pairs the labels of pattern and name one to one |
| Wildcard.MatchesWildcardSet | src/dns/rules.rs:245-260 | an absent set never hits; a compiled set hits exactly when the domain or one of its parents matches some pattern |
| Wildcard.GlobCoversByLabels | src/dns/rules.rs:245-260 | for patterns without angle brackets, "the name or a parent matches" is "the last labels of the name match the labels of the pattern one to one" |
| Wildcard.MeaningLabels | src/dns/rules.rs:335-356 | a matching name has exactly as many labels as the pattern, for every pattern |
| Subscription.BlockLineEffect | src/dns/rules.rs:280-304 | a double-bar line for a valid dotted name in any letter case, with any options, blocks exactly the lower-cased name |
| Subscription.AllowLineEffect | src/dns/rules.rs:115-128 | the same line after `@@` allows exactly the lower-cased name |
| Subscription.DotLineEffect | src/dns/rules.rs:143-159 | a dot before a valid dotted name, with any options, blocks exactly the lower-cased name |
| Subscription.PlainLineEffect | src/dns/rules.rs:176-181 | a bare valid dotted name blocks itself and is never taken for a hosts line |
| Subscription.SubdomainLine | src/dns/rules.rs:167-174 | `*.name` blocks the name itself too |
| Subscription.HostsLine | src/dns/rules.rs:161-165 | a trimmed line whose second word is a valid dotted name blocks the name if its first word is an address and the name does not end in `.local`, and otherwise does nothing at all |
| Subscription.StarBlockLine | src/dns/rules.rs:309-333 | a trimmed double-bar line whose name holds a star and a dot, any other characters and any options, becomes the lower-cased block pattern and never a plain domain |
| Subscription.StarAllowLine | src/dns/rules.rs:121-126 | the same line after `@@` becomes the lower-cased allow pattern |
| Subscription.StarLineEffects | src/dns/rules.rs:96-141 | both, for lines as they stand in a file with blanks after the options |
| RuleSets.RuleSet.constructor | src/dns/rules.rs:52-62 | an empty set indexes the empty history and has nothing compiled |
| RuleSets.RuleSet.Clone | src/dns/filter.rs:209-209 | a copy indexes the same rules with the same compiled sets |
| RuleSets.RuleSet.AddRule | src/dns/rules.rs:96-184 | the index stays the index of all lines so far; true exactly for rules; a new pattern drops the compiled set of its own side and no other |
| RuleSets.RuleSet.Build | src/dns/rules.rs:81-92 | each side is compiled from exactly its current patterns, present exactly when there are patterns, all ASCII and together within the size limit |
| RuleSets.RuleSet.MatchDomain | src/dns/rules.rs:192-217 | the index answers the verdict read off the rules one by one: allowed first, then blocked, else none, with wildcards of a compiled side taking part |
| RuleLaws.LoadRules | src/dns/filter.rs:48-174 | loading lines and building gives the compiled index of exactly those lines and counts the rules |
| RuleLaws.Ask | src/dns/rules.rs:81-217 | for all lines and names, loading, compiling and asking equals the verdict read off the lines, wildcards taking part exactly when the engine takes the patterns of their side |
| RuleLaws.AskGroup | src/dns/handler.rs:545-554 | group rules are added without compiling, so for all lines and names the verdict is the line-by-line one with every wildcard left out |
| RuleLaws.GroupVerdict | src/dns/handler.rs:545-554 | the verdict of the uncompiled group rules is that of the same rules compiled if and only if a plain rule allows the name, or no rule that counts once compiled allows it and either a plain rule blocks it or none that counts does |
| FailingInputs.GroupLineInert | src/dns/handler.rs:545-548 | a concrete group line that blocks a name once compiled and does nothing in a group |
| RuleLaws.OrderAndRepetitionIrrelevant | src/dns/rules.rs:96-217 | lists with the same lines give the same verdicts in any order and number, unless only one of them exceeds the engine size limit |
| RuleLaws.SubdomainsInherit | src/dns/rules.rs:192-260 | for all names, subdomains of an allowed name are allowed and of a blocked name never unmatched |
| RuleLaws.BlockLineMonotone | src/dns/rules.rs:76-141 | loading one more line that is no exception: allowed names stay exactly the same, and a blocked name becomes unmatched if and only if the engine refuses the pattern list with the new pattern and only wildcards blocked the name |
| RuleLaws.AddRuleLive | src/dns/filter.rs:206-213 | the new set is the compiled index of the current rules and the added one; the current set is untouched |
| RuleLaws.AskAround | src/dns/filter.rs:206-213 | asking before and after a rule is added to a running engine gives the verdicts of the rules without and with it, which obey the same law |
| FailingInputs.RejectedLine | src/dns/rules.rs:348-352 | two concrete lines, the second of which unblocks a name the first blocks |
| Subscription.CaptureIsExpression | src/dns/subscription.rs:87-95 | the recogniser captures a name exactly when the rule expression does: a name shape followed by nothing, a caret or a dollar |
| Subscription.ParseAdguardRules | src/dns/subscription.rs:144-226 | the loop yields what the normaliser stores for each line, block and allow rules apart, each list in line order |
| Subscription.NormalisationKeepsMeaning | src/dns/subscription.rs:144-226 | a block, exception or dot line for a valid dotted name is stored with the effect of the original line if and only if its options hold no cosmetic mark; a plain line always is |
| Subscription.WildcardLinesPass | src/dns/subscription.rs:200-210 | a line with a star in the name passes through trimmed with its effect if and only if it holds no cosmetic mark, and is dropped otherwise |
| Subscription.ParseHostsRules | src/dns/subscription.rs:229-259 | the loop yields the stored rules of the lines in order |
| Subscription.HostsNormalisation | src/dns/subscription.rs:229-259 | whatever the first word, a dotted second word is always stored as a block rule, which keeps the meaning of the line if and only if the line is no `!` comment, its first word is an address and the name does not end in `.local` |
| FailingInputs.CosmeticMarkDropsRule | src/dns/subscription.rs:156-159 | a concrete rule the engine applies and the list normaliser drops |
| FailingInputs.LocalNameBlocked | src/dns/subscription.rs:240-255 | a concrete hosts line with a `.local` name whose meaning the hosts normaliser changes |
| FailingInputs.NoAddressBlocked | src/dns/subscription.rs:240-255 | a concrete line that starts with no address, which the rule parser ignores and the hosts normaliser turns into a block rule |
| SubscriptionLaws.SubscriptionKeepsVerdicts | src/dns/subscription.rs:144-226 | for a list of faithful lines, loading and compiling the stored rules gives every name the verdict of loading and compiling the lines |
| SubscriptionLaws.PatternsKept | src/dns/subscription.rs:183-210 | for faithful lines each side has the same patterns in the same order before and after normalisation |
| SubscriptionLaws.AskSubscription | src/dns/subscription.rs:144-226 | the same end to end: parse the list, load what is stored, ask |
| SubscriptionLaws.NamedLinesFaithful | src/dns/subscription.rs:166-223 | the documented forms for valid dotted names are faithful if and only if their options hold no cosmetic mark |
| SubscriptionLaws.WildcardLinesFaithful | src/dns/subscription.rs:200-210 | wildcard lines without a cosmetic mark are faithful |
| SubscriptionLaws.SkippedLinesFaithful | src/dns/subscription.rs:151-164 | blank lines, comments and regular expressions, which are dropped, asked for nothing |
| AppCatalog.AppCatalogCache.LoadFromDb | src/db/app_catalog_cache.rs:29-49 | after a fetch every domain maps to its last row; a failed fetch changes nothing |
| AppCatalog.AppCatalogCache.MatchDomain | src/db/app_catalog_cache.rs:54-79 | the split, drop and join walk returns the application of the longest catalog domain that covers the name, and nothing exactly when none does |
| RuleStats.DomainHitsAreBlocks | src/api/handlers/rule_stats.rs:37-68 | for double-bar rules with valid dotted names the statistics count exactly the names the engine blocks for that line |
| RuleStats.WildcardHits | src/api/handlers/rule_stats.rs:203-213 | a compiled wildcard pattern counts a name exactly when the name or a parent matches it and the name has as many labels as the pattern, angle brackets or not |
| RuleStats.WildcardLineHits | src/api/handlers/rule_stats.rs:44-68 | a double-bar line with a star counts a name exactly when the engine takes the pattern, blocks the name for that line with it compiled, and the name has as many labels as the pattern |
| FailingInputs.SubdomainNotCounted | src/api/handlers/rule_stats.rs:203-213 | a concrete name that is blocked for a line but not counted for it |
| RuleStats.HitCount | src/api/handlers/rule_stats.rs:165-217 | the counts are folded by lower-cased name, the last row of a name staying, and the loop adds up those that hit in whatever order; with what was overwritten that is the sum over all rows that hit |
| RuleStats.CountsConserved | src/api/handlers/rule_stats.rs:165-169 | the total over the folded names and the counts overwritten in folding add up to the total over all rows |
| RuleStats.OverwrittenWhen | src/api/handlers/rule_stats.rs:165-169 | with positive counts, nothing is overwritten if and only if no name that hits was logged in two letter cases |
| RuleStats.TotalsAgree | src/api/handlers/rule_stats.rs:165-217 | for double-bar rules with valid dotted names the total is what the engine blocked for that rule if and only if nothing is overwritten; with positive counts, if and only if no name the rule covers was logged in two letter cases |
| FailingInputs.TwoCasesMiscounted | src/api/handlers/rule_stats.rs:165-169 | two concrete rows for one name in two letter cases whose total differs from what the engine blocked |
| LogWriter.PruningInvisible | src/db/query_log_writer.rs:134-138 | for every interleaving under a monotone clock, dropping trackers aged 120 s raises exactly the alerts of a writer that never drops any, at the same events |
| LogWriter.AlertsSoundAndCharged | src/db/query_log_writer.rs:68-112 | every alert is backed by exactly fifty blocked entries of its client since the window opened, all within 60 whole seconds; fifty times the alerts of a client never exceeds its blocked entries |
| LogWriter.AlertsExactly | src/db/query_log_writer.rs:68-112 | for every run, an entry raises an alert if and only if it is the fiftieth blocked entry of its client since its window opened, a window opening with the first blocked entry and again with the first one more than 60 whole seconds after the last opening |
| LogWriter.PrunedAlertsExactly | src/db/query_log_writer.rs:68-138 | the same of the writer that drops stale trackers, under a monotone clock |
| LogWriter.StraddlingBurst | src/db/query_log_writer.rs:72-79 | a run with 97 blocked entries of one client within two seconds and no alert |
| LogWriter.Writer.Detect | src/db/query_log_writer.rs:68-112 | one entry moves the client's tracker and raises an alert as the window function says |
| LogWriter.Writer.Push | src/db/query_log_writer.rs:114-117 | the entry joins the batch and a full batch is handed over; nothing is lost or reordered |
| LogWriter.Writer.Flush | src/db/query_log_writer.rs:145-156 | the whole batch is handed over once and cleared |
| LogWriter.Writer.OnEntry | src/db/query_log_writer.rs:64-118 | keeps conservation, batch bounds and the watch over all events so far |
| LogWriter.Writer.OnTick | src/db/query_log_writer.rs:130-139 | hands over the batch, prunes, and keeps the invariant |
| LogWriter.Writer.OnClose | src/db/query_log_writer.rs:119-126 | nothing is pending and the flushed batches are exactly the entries received |
| LogWriter.Run | src/db/query_log_writer.rs:49-142 | a whole run handles exactly the events up to and with the first close, or all of them if there is none; after a close every entry received has been flushed once, in order, in batches of 1 to 500 |
| BatchInsert.WriteBatch | src/db/query_log_writer.rs:158-213 | every statement's placeholders are `$1` to `$11r` with at most 32766 parameters; together the statements bind every field of every entry once, in order |
| BatchInsert.InsertChunk | src/db/query_log_writer.rs:171-207 | one statement for its rows: text and bound values agree |
| BatchInsert.BoundAt | src/db/query_log_writer.rs:194-207 | placeholder number 11·row + column + 1 is bound to that column of that row |
| UpstreamPools.SortSorted | src/dns/upstream_pool.rs:163-168 | the stable sort by latency of a pool in priority order is ordered by latency, ties by priority |
| UpstreamPools.ShuffleGroups | src/dns/upstream_pool.rs:139-154 | whatever the shuffles do, the grouped loop terminates with a permutation in which every position keeps its priority |
| UpstreamPools.UpstreamPool.TryOrder | src/dns/upstream_pool.rs:134-169 | all nodes once each; in non-decreasing priority under the priority strategy, by latency then priority under fastest, in any order under load balancing |
| UpstreamPools.Failover | src/dns/upstream_pool.rs:171-189 | the first node to succeed answers under its own name; if none does, the last error is returned |
| UpstreamPools.UpstreamPool.Resolve | src/dns/upstream_pool.rs:127-190 | whatever the attempts return: fails only if every node fails, with the error of one of them; otherwise a node that succeeds answers, of least priority number or least latency then priority as the strategy asks |
| UpstreamPools.UpstreamPool.UpdateLatency | src/dns/upstream_pool.rs:116-122 | exactly the nodes with that id change, and only their latency |
| UpstreamPools.NewPool | src/dns/upstream_pool.rs:40-113 | the pool is the usable upstreams in priority order, or the fallback node, and never empty; it fails exactly when no upstream is usable and the fallback resolver cannot be made |
| PoolAnswers.ResolveThrough | src/dns/resolver.rs:286-359 | over real lookups: the query fails exactly when no node can encode its response; otherwise, among the nodes that can, one that comes first under the strategy answers with its own response, even if its lookup failed |
| PoolAnswers.ResolveAndStore | src/dns/handler.rs:333-365 | if some node can encode its response, the response of such a node that the strategy puts first is sent and kept under the key of the question for its clamped least TTL, 300 seconds if its lookup failed, unless it does not parse again; then, or if no node can encode, nothing is sent or kept |
| FailingInputs.FailedNodeAnswers | src/dns/resolver.rs:344-358 | of two nodes the first fails its lookup and the second succeeds: the SERVFAIL of the first is the answer |
| QueryBuilders.PgNumbered | src/api/handlers/query_log_advanced.rs:328-336 | repeated search and in-place replacement terminates and is one left-to-right renumbering of the marks, on every string |
| QueryBuilders.NumberedPlaceholders | src/api/handlers/query_log_advanced.rs:327-336 | in a text without dollar signs or digits right after a mark, scanning the numbered text finds exactly the next numbers, one per mark, in order |
| QueryBuilders.TranslateMatched | src/api/handlers/query_log_advanced.rs:187-295 | whatever the filter, its condition has exactly one mark per value |
| AdvancedQuery.QueryBuilder.AddFilter | src/api/handlers/query_log_advanced.rs:178-300 | conditions and bindings stay in step; unsupported filters are skipped and invalid values are errors that change nothing |
| AdvancedQuery.QueryBuilder.Build | src/api/handlers/query_log_advanced.rs:302-324 | the statement holds exactly `$1` to `$n` in order, n the number of bindings, each condition numbered where its values sit, LIMIT and OFFSET last |
| AdvancedQuery.GroupOwnsItsBindings | src/api/handlers/query_log_advanced.rs:297-336 | the placeholders of a condition are the numbers of exactly its own values |
| AdvancedQuery.ListAdvanced | src/api/handlers/query_log_advanced.rs:375-444 | fails exactly when some filter is invalid; otherwise one placeholder per binding, and the values that can be bound are sent in order; as many values as placeholders if and only if the time comparisons, `status` and `qtype` filters hold only strings and numbers |
| AdvancedQuery.SentCount | src/api/handlers/query_log_advanced.rs:436-442 | as many values are sent as placeholders exist, the k-th for `$k`, exactly when every binding is a string or a number |
| AdvancedQuery.BooleanMisaligns | src/api/handlers/query_log_advanced.rs:237-240 | a request with one boolean status filter builds a statement with three placeholders and sends two values, limit and offset |
| ListQuery.CursorQuery | src/api/handlers/query_log.rs:81-179 | whichever filters are given, the cursor statement holds exactly `$1` to `$n`, and the separately written chain of binds sends the values of its tests in the same order, then cursor and limit |
| ListQuery.BindValues | src/api/handlers/query_log.rs:160-179 | the second chain of conditionals binds, for each test in order, the value given for it, then cursor and limit plus one |
| CursorPaging.CursorPage | src/api/handlers/query_log.rs:134-190 | the page is the first rows, a next cursor exists exactly when rows remain, and the remaining rows are those below it |
| CursorPaging.FollowIsExact | src/api/handlers/query_log.rs:105-190 | if rows below the start only ever stop matching, by ageing, edits or deletion, following cursors returns every row that matched at the start, once each in descending order, if and only if the i-th of them still matches at the request whose page it falls on, whatever happens at or above the start |
| CursorPaging.ReturnedExactly | src/api/handlers/query_log.rs:121-190 | whatever happens between requests to filter and rows, as long as no new row appears below the start, a row is returned if and only if it is below the start and matches at the request that reaches it |
| CursorPaging.FollowDescends | src/api/handlers/query_log.rs:134-190 | the walk ends and is strictly descending, so no row comes twice |
| CursorPaging.FollowCursors | src/api/handlers/query_log.rs:121-190 | requesting page after page with the cursor each page returns, until there is none, ends and gives the rows of the walk the laws above are about |
| CursorPaging.FollowInRange | src/api/handlers/query_log.rs:105-119 | with a monotone clock and rows below the start only deleted, nothing is missed if and only if each row is still in the table, and in the time range if there is one, when its page is fetched |
| CursorPaging.MovingRangeMisses | src/api/handlers/query_log.rs:105-119 | rows logged at seconds 10 and 20, requests at seconds 15 and 25 for the last ten seconds, one row a page: the older row matches at the start and following the cursors returns only the other |
| TcpServer.StepAccounted | src/dns/server.rs:56-135 | every step keeps counter and permits in balance and no decrement meets a zero counter |
| TcpServer.ConnectionsAccounted | src/dns/server.rs:48-145 | in every run the counter is the tasks between increment and decrement, at most the permits held and so at most 256, and everything is back when all tasks have ended |
| TcpServer.DrainSeesZero | src/dns/server.rs:218-233 | the counter the shutdown wait reads is zero exactly when no accepted connection is counted but not yet spawned and every spawned task has done its decrement |
| DnsPipeline.CacheKeyInjective | src/dns/cache.rs:57-59 | two questions share a cache entry exactly when names agree up to case and types agree |
| DnsPipeline.MinTtl | src/dns/resolver.rs:310-324 | the loop finds the least TTL of the answer records, none exactly when there are none |
| DnsPipeline.GroupRewriteCase | src/dns/handler.rs:211-221 | the rewrite found for a name is that of its lower-case form, fall-back to the global rewrites included, exactly when the name is in lower case, or the group has none for it, or the global one is the same |
| FailingInputs.UpperCaseMissesGroup | src/dns/handler.rs:213-221 | a concrete group rewrite that is not found for an upper-case query |
| DnsPipeline.DnsHandler.CacheGet | src/dns/handler.rs:286-319 | a hit, exactly when the key is cached, is the cached response, one kept for the same folded name and type, byte for byte but for the request's id |
| DnsPipeline.DnsHandler.ResolveAndKeep | src/dns/handler.rs:321-365 | there is a reply exactly when an upstream can be asked and its response can be encoded and parsed again; it carries the request's id and is kept with the clamped least TTL, 300 seconds for a failed lookup; without a reply nothing is kept |
| DnsPipeline.DnsHandler.IsBlocked | src/dns/handler.rs:247-264 | the group's verdict decides, and the global one when the group has none |
| DnsPipeline.DnsHandler.Answer | src/dns/handler.rs:205-381 | rewrite, filter, cache and upstream in that order, each exactly under its own condition, and the reply each of them gives; only upstream replies enter the cache |
| DnsPipeline.DnsHandler.HandleInternal | src/dns/handler.rs:170-381 | every reply carries the request's id; a blocked name without rewrite reply gets NXDOMAIN whatever the cache holds; a cached question gets what the cache holds, an uncached one exactly what the upstream comes to; only upstream replies are kept |
| DnsPipeline.Serve | src/dns/handler.rs:170-381 | over any run of whole queries, evictions and rule reloads every query has the outcome that follows from the rules in force and from the answer current for its folded name and type, the last an upstream gave and the cache has not lost since; so the run is consistent |
| DnsPipeline.ServedConsistent | src/dns/handler.rs:286-381 | whenever every outcome follows in that way, every reply carries its id and every cached reply repeats the last upstream reply for the same folded name and type, not evicted since |
| DnsPipeline.Holder | src/dns/handler.rs:286-365 | after any run at most one earlier answer is current for a key, and this finds it |
| ConcurrentServe.StepKeeps | src/dns/handler.rs:286-365 | every atomic step of any task, and any eviction, keeps cache, tasks and log in order |
| ConcurrentServe.RepliesConsistent | src/dns/handler.rs:286-381 | over every interleaving of cache lookups, upstream answers, insertions, replies and evictions: each reply carries its own id, a cached one repeats but for the id a response stored earlier for the same folded name and type, and any other was stored before it was sent |
| Csv.FieldRoundTrip | src/api/handlers/rules.rs:684-690 | an escaped field is read back exactly, whatever it holds |
| Csv.TableRoundTrip | src/api/handlers/query_log.rs:687-694 | every table of at least one column is recovered by a reader following rules 5 to 7 of section 2 of RFC 4180 with LF record ends |
| Csv.ExportRules | src/api/handlers/rules.rs:577-594 | reading the exported text gives the header and every field of every rule |
| Csv.ExportLog | src/api/handlers/query_log.rs:544-574 | reading the exported text gives the labels and every cell, integers written bare included, for labels that need no quotes |
| RuleTransfer.ExportText | src/api/handlers/rules.rs:608-624 | importing the exported text gives exactly the enabled rules in order if and only if each is one trimmed, non-empty line that is no comment, and every further line of a comment or a disabled rule is blank or a comment |
| RuleTransfer.TextRoundTrip | src/api/handlers/rules.rs:827-838 | the same law on the text itself |
| FailingInputs.CommentRuleLost | src/api/handlers/rules.rs:827-838 | a concrete exported rule that does not come back |
| FailingInputs.CommentBecomesRule | src/api/handlers/rules.rs:613-617 | a concrete row whose comment comes back as a rule |
| RuleTransfer.NewRulesSound | src/api/handlers/rules.rs:878-930 | the rules an import adds are distinct and exactly the non-empty offered ones that were not there |
| RuleTransfer.RuleStore.Import | src/api/handlers/rules.rs:848-938 | an import succeeds exactly when there are entries and every database call it makes does, which are one look per non-empty entry and one insertion per new rule besides opening and committing; on success imported + skipped = total and exactly the new rules are added; otherwise nothing changes |
| RuleTransfer.ImportTwice | src/api/handlers/rules.rs:858-930 | importing a file twice leaves the table with its new rules once if either import succeeds and as before if neither does; a second success imports nothing |
| UrlParse.DotGrammar | src/dns/resolver.rs:371-424 | the DoT parser returns host and port exactly of the strings `tls://` and then `h`, `h:port`, `[h]` or `[h]:port`, with or without a path, whose host is not empty; a port is digits up to 65535, a plus sign before them allowed |
| UrlParse.DohGrammar | src/dns/resolver.rs:434-487 | the same of `https://` strings with their path, or the default path |
| UrlParse.DohHostPortGrammar | src/api/handlers/upstreams.rs:727-772 | the same of the handlers' own copy |
| UrlParse.GenericGrammar | src/api/mod.rs:368-412 | the generic parser accepts exactly the strings of the same grammar whose authority is not empty, host or no host |
| UrlParse.DohParsersAgree | src/api/handlers/upstreams.rs:727-772 | the two separately written DoH parsers succeed on the same strings with equal results |
| UrlParse.DotAgreesWithGeneric | src/dns/resolver.rs:371-424 | on every string the DoT parser is the generic parser with empty hosts refused |
| UrlParse.DohAgreesWithGeneric | src/dns/resolver.rs:434-487 | so is the DoH parser, path aside |
| UrlParse.EmptyHostAccepted | src/api/mod.rs:368-412 | the generic parser accepts an empty host that the DoT parser refuses |
| UrlParse.ParsersInvertPrinting | src/dns/resolver.rs:371-487 | parsing a printed `scheme://host:port` or bracketed form, with or without path, gives back host, port and path in all four parsers |

## Left out

- Letters, digits and blanks outside ASCII: they are treated as symbols.
- Format detection of subscription lists (`is_hosts_format`) and of imports (JSON or text), and the JSON import branch.
- Lines outside the stated classes (`|name`, trailing slash or dot, `*.name` in subscriptions, hosts lines that open with `/`, `@`, `|`, `.` or `*`): the two parsers differ there.
- The fetch, size limit and URL check of remote lists, and their storage in the database.
- The unnumbered count and aggregate queries, and the filter clause of the log export.
- Insertions of rows below the start between cursor requests (new rows get higher ids), offset paging, and how rows are rendered.
- Safe-search rewrites and where parental-control rules come from: reloading is modelled from the list of rule lines on.
- Rewrites and filtering inside `ConcurrentServe`: they touch no shared cache and are in `DnsPipeline`.
- The last-seen time and the ordering of the hit statistics.
- Client configuration lookup and its cache, metrics counters, and the query log's own fields.
- Cache expiry and capacity: entries may vanish at any time, which covers both.
- The UDP loop, message framing on TCP beyond the length prefix, and task panics, which abort the process in release builds.
- Latency measurement and the parallel health checks.
- Access control lists, authentication, roles, validators, WebSocket tickets, dashboards, backups, configuration and deployment: branch-level facts or input and output.
