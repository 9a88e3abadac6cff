# DNSLeaf: a verified model

DNSLeaf is one Go process: a filtering DNS resolver with a policy engine, a response cache, rate
limits, users and sessions, and a background worker that saves state. This project models its
stateful core in Dafny and proves what the parts promise together. Sockets, HTTP plumbing and the
user interface are not modelled. Nothing here runs the program.

| file | models |
|---|---|
| `Text.dfy` | the string operations of Go's standard library that the rest is built from |
| `Rules.dfy`, `RuleCache.dfy` | domain rules, the regex text of wildcards and what it accepts, the bounded cache of compiled rules |
| `Gravity.dfy` | the sorted domain index, the per-list position indexes, the double binary search |
| `Blocking.dfy`, `Decision.dfy`, `Layers.dfy` | the three rule tables, the layered block decision, and what it decides |
| `CacheKey.dfy`, `Lifetime.dfy`, `ResponseCache.dfy` | cache keys, lifetimes with negative caching, ageing, the cache with its messages on the heap |
| `Addresses.dfy`, `Resolver.dfy`, `Answers.dfy` | address lists, `resolveDNS` as interleaved steps of concurrent queries, and what every run answers |
| `RateLimit.dfy`, `LoginThrottle.dfy` | the two time-window state machines |
| `Counters.dfy` | global and per-client counters, updated in two separate steps |
| `Accounts.dfy`, `Requests.dfy` | users, sessions and the configuration transaction, and what one request changes |
| `Base64.dfy`, `Passwords.dfy` | PBKDF2 and stored password hashes |
| `Persist.dfy`, `Lifecycle.dfy` | the save worker, and registering servers while the process stops |

Loops over slices and maps are methods proved against a function or predicate; what is promised is
then proved about that function, or about every run of a step relation whose steps are the lock
regions of the source. Walking a Go map is a nondeterministic choice of keys. Clocks are integers of
nanoseconds. The regex engine (outside the text generated for wildcards), the address parser, HMAC,
upstream replies, random bytes and the success of a file write are parameters.

## What the model shows that a reader might not expect

- A blocklist is sorted before its entries are normalised, so the list kept need not be sorted. It
  is sorted exactly when no entry with a trailing dot meets an entry that continues it by a character
  below the dot. Where no two entries normalise alike, an unsorted list always makes its index wrong for
  some name: from the lines `x-` and `x..` it denies `x`.
- Under a profile that names blocklists, adding a rule can unblock a name. Where the early layers do not
  decide every ordinary name, a rule added with a given source cannot exactly when the source is not
  empty and is not a blocklist the profile leaves out.
- A regex rule is lower-cased before it is compiled, so that `\S` in it means `\s`; and a pattern is
  normalised twice, so that a wildcard that ends in two dots is compiled without either.
- A cache lookup reads the clock before it locks the table. If another query stores in between, a
  second or more later, the elapsed time wraps and fresh records are handed out with a TTL of 0.
- Ageing a cached message also counts down the TTL field of OPT records, which holds flags.
- A rate-limit window above 9223372036 seconds wraps around, and then some calls are not limited as the
  window says; at 10000000000 seconds nothing is limited. Configuration validation only asks for a
  non-negative window.
- The limiter, too, reads the clock before its lock. A late reader counts, of the calls in its window,
  only those that no call since has found outside its own.
- The login throttle counts at most 22 failures in a window for a client that makes one attempt after the
  other, and at most 7 + 15c for one with c attempts in flight if judgements lock in the order of their
  clock readings; a judgement that locks late can end a later block, and with two or more in flight more
  are counted.
- A handler that edits the configuration and then refuses leaves the edit in memory, unsaved; for the
  client handler this happens exactly when the profile asked for is not configured and the name or the
  whitelist would change.
- Names are told apart by lower-casing when a configuration is validated and by case folding when a user
  is renamed; the two differ outside ASCII.
- A save that fails is not tried again until something else asks for one.
- The saved file takes the global counters before the clients, so in the file a client column may
  exceed its global counter, which in memory it never does.
- `docs/ARCHITECTURE.md` lists pass-through mode before rate limiting and access policy; the code
  (`dns_server.go`, lines 68-111) applies them first, and the model follows the code.

## Model

| member | source | states |
|---|---|---|
| Text.Utf8Injective | config.go:132 | different passwords reach the key derivation as different bytes |
| Rules.WildcardMeaning | blocklists.go:207-210 | every wildcard compiles, and its regex text accepts a name exactly when its stars can be filled with newline-free strings, every other character (backslashes and metacharacters included) standing for itself |
| Rules.WildcardIsGlob | blocklists.go:207-224 | on newline-free names the compiled wildcard accepts exactly what the glob accepts |
| Rules.NewlineNotMatched | blocklists.go:207-210 | the restriction to newline-free names is needed |
| Rules.Quoted | blocklists.go:208 | just these fourteen characters of a wildcard are escaped |
| Rules.NormalizeMeans | blocklists.go:168-177 | a rule is trimmed and lower-cased, regexes included; any rule not written as a regex then loses one dot at its end |
| Rules.RuleMeaning | blocklists.go:189-236 | what any rule matches: nothing, if the rule or the name comes out empty; the name it is; the regex after "regex:" or between slashes, if that compiles; or a filling of its stars; a pattern is normalised a second time before it is compiled |
| RuleCache.Matcher.DomainRuleMatches | blocklists.go:238-263 | answers as the uncached match does, keeps every entry, and adds a sound one exactly where a pattern compiles and fewer than 4096 are kept |
| RuleCache.CachedAnswersAreUncachedAnswers | blocklists.go:238-263 | in every interleaving of the two lock regions entries equal a fresh compile, answers equal the uncached match, and the table stays within 4096 |
| Gravity.GravityIndex.Merge | blocklists.go:588-609 | the append, sort and in-place compaction compute `Merged` |
| Gravity.CompactInPlace | blocklists.go:601-608 | compacting in place leaves the input without adjacent repetitions in the prefix kept |
| Gravity.DedupAscends | blocklists.go:601-608 | compaction gives a strictly ascending slice exactly when its input ascends |
| Gravity.MergeIsSortedUnion | blocklists.go:588-609 | merging leaves gravity strictly ascending and equal, as a set, to old gravity plus the non-empty normalised domains |
| Gravity.GravityContainsIsMembership | blocklists.go:611-614 | on ascending gravity the binary search is membership |
| Gravity.GravityIndex.Rebuild | blocklists.go:616-630 | every list with a position gets its positions, in whatever order the map is walked |
| Gravity.PositionsAscend | blocklists.go:616-630 | the positions kept for a strictly ascending list are strictly ascending |
| Gravity.IndexNeverWronglyYes | blocklists.go:812-820 | with no precondition at all, a yes means the name is on the list and in gravity |
| Gravity.IndexIsMembership | blocklists.go:812-820 | for ascending lists the double search says yes exactly for names on the list and among the first 2^32 of gravity |
| Gravity.CompactListInPlace | blocklists.go:486-499 | the loop that normalises and compacts one list in place |
| Gravity.ListExactHolds | blocklists.go:486-499 | the list kept holds exactly the non-empty normalised entries |
| Gravity.ListExactAscends | blocklists.go:486-499 | the list kept is strictly ascending exactly when normalising turns no two entries round |
| Gravity.FixpointListsAscend | blocklists.go:486-499 | entries that normalising leaves alone always give an ascending list |
| Gravity.TidyListsAscend | blocklists.go:486-499 | for lower-cased, trimmed entries the condition is that none with a trailing dot meets one continuing it below the dot |
| Gravity.DottedLine | blocklists.go:111-177 | normalising is not idempotent: the line "x.." is read as "x.", which the list then keeps as "x" |
| Gravity.ClashingListMisses | blocklists.go:486-499 | a list of two entries whose index denies a name that is on the list and in gravity |
| Gravity.LoadedListAnswers | blocklists.go:616-630 | after merge and rebuild, without an inversion, the index answers for the normalised entries of the list, whatever else gravity holds |
| Gravity.FoundListAscends | blocklists.go:812-820 | if the double search finds everything on a list without repetitions, the list ascends |
| Gravity.IndexAnswersIff | blocklists.go:486-499 | when no two different entries normalise alike, the index answers right for every name exactly when normalising turns no two entries round |
| Gravity.RepeatedClashAnswersRight | blocklists.go:486-499 | that condition is needed: a list with a repeated name whose clash does no harm |
| Blocking.RuleTables.AddBlockedRule | blocklists.go:636-650 | the whole new state of the three tables and whether the rule is new |
| Blocking.RuleTables.RemoveBlockedRule | blocklists.go:652-663 | the whole new state, the pattern list filtered in place |
| Blocking.RuleTables.ResetBlocked | blocklists.go:578-586 | all three tables, gravity and its indexes are emptied |
| Blocking.RuleTables.InitBlocked | blocklists.go:570-576 | every configured rule is added with the source "config" |
| Blocking.AddedAllHolds | blocklists.go:570-576 | adding rules in turn adds exactly what they normalise to, each with the source given |
| Blocking.TablesStayInStep | blocklists.go:636-663 | in every state reached the pattern list is duplicate-free and equals the pattern rules of blocked, and sources are of blocked rules |
| Blocking.RemoveUndoesAdd | blocklists.go:636-663 | removing a rule undoes adding it when it was not there |
| Decision.BlockDecision | blocklists.go:670-752 | the loops and early returns compute `Decide`, source included, of which the rows from Layers.ProfileTurnsOff to Layers.LimitedDecisionIsSafeIff say what it is |
| Decision.EarlyLayers | blocklists.go:676-703 | the loops of the profile, allow and schedule layers compute `EarlySays`, of which the rows from Layers.ProfileTurnsOff to Layers.ScheduleDecides say what it decides |
| Decision.WildcardWalk | blocklists.go:719-735 | the walk over suffixes finds the first counting wildcard |
| Decision.PatternScan | blocklists.go:736-750 | the scan finds the first counting pattern that matches |
| Decision.ProfileForClient | blocklists.go:754-780 | the exact entry, else any network entry that holds the client, else the default |
| Decision.OwnEntryDecides | blocklists.go:754-780 | the client's own entry decides its profile, if it names one |
| Decision.NetworkOrDefaultDecides | blocklists.go:754-780 | otherwise some network entry that holds the client does, and where there is none or it is blank the default profile, and else the one named "default" |
| Decision.ProfileBlocklistContains | blocklists.go:788-810 | a profile's lists by name or source, each asked through its index |
| Decision.OnListIsMembership | blocklists.go:812-820 | the index rebuilt for an ascending list answers for that list and gravity |
| Decision.ProfileListsAreMembership | blocklists.go:788-820 | after a rebuild over ascending lists, a profile's lists hold a name exactly when gravity does and some list the profile names, by key or through a configured list, has it |
| Decision.ListedSource | blocklists.go:822-829 | whether some configured list bears the source |
| Decision.ProfileHasSource | blocklists.go:831-844 | whether the profile names a list with the source, directly or through a configured list |
| Decision.ScheduledDecision | blocklists.go:846-858 | the first enabled, active, matching rule with a known action decides |
| Layers.ProfileTurnsOff | blocklists.go:676-678 | a profile that is disabled, or disables blocking, lets every name through |
| Layers.ProfileAllows | blocklists.go:679-684 | a matching rule of the profile's allowed ones lets the name through, whatever is blocked by the profile, the lists, the schedule or the tables |
| Layers.ProfileBlocks | blocklists.go:685-689 | with none of those, a matching rule of the profile's blocked ones blocks as "profile:" and the profile's name |
| Layers.ProfileListBlocks | blocklists.go:690-694 | with none of those, a list the profile names that has the name blocks as "profile-list:" and the profile's name |
| Layers.AllowedForAll | blocklists.go:696-700 | with none of the blocking ones, a matching allowed rule of the configuration lets the name through |
| Layers.ScheduleDecides | blocklists.go:701-703 | with none of those, the first scheduled rule that is enabled, active, matches, and blocks or allows, decides as "schedule:" and its domain |
| Layers.BlockedIff | blocklists.go:670-752 | the whole decision over all layers as one condition on what matches |
| Layers.CaseAndDotDoNotMatter | blocklists.go:673 | the decision is the same for a query in any case and with one dot more at the end |
| Layers.LiteralSource | blocklists.go:704-718 | past these layers a rule's own source decides, unless the profile leaves it out; a rule without one is "manual" and gravity "gravity", both only without a limiting profile |
| Layers.DisregardedIsLeftOut | blocklists.go:822-844 | a source is disregarded exactly if the profile names lists, the source is the name or source of a configured list in any case, and none of those the profile names is that list |
| Layers.WildcardsAreSuffixes | blocklists.go:719-721 | the walk tries "*." before exactly the parts of the name that follow a dot |
| Layers.WildcardsShrink | blocklists.go:719-721 | the longest first |
| Layers.WildcardSource | blocklists.go:719-735 | past literal rules and gravity the longest counting wildcard of the name decides, with its source or "wildcard" |
| Layers.PatternSource | blocklists.go:736-751 | and without one the first counting pattern rule that matches, with its source or "regex" |
| Decision.TablesVerdict | blocklists.go:704-751 | the verdict of tables and gravity as one condition |
| Layers.WalkAgreesWithScan | blocklists.go:719-750 | whatever the suffix walk finds the pattern scan would match too |
| Layers.UnlimitedDecision | blocklists.go:670-752 | without a limiting profile, a name past the early layers is blocked exactly when it is a rule, in gravity, or matched by a pattern rule |
| Layers.LimitedDecision | blocklists.go:670-752 | under a limiting profile, a name past the early layers is blocked exactly when it is a rule whose source is not left out, or is no rule and some pattern rule matches whose source is neither empty nor left out |
| Layers.AddingNeverUnblocks | blocklists.go:636-752 | without a limiting profile, adding a rule never unblocks a name |
| Layers.LimitedAddingIsSafeIff | blocklists.go:704-750 | under a limiting profile, adding with a source never unblocks exactly when the source is non-empty and not a list left out |
| Layers.DisregardedSourceUnblocks | blocklists.go:704-750 | for every other source and every ordinary name, tables under which adding unblocks it |
| Layers.LimitedDecisionIsSafeIff | blocklists.go:670-752 | the same condition is exact for the whole decision as soon as its early layers leave some ordinary name undecided |
| CacheKey.RenderInjective | dns_server.go:192-210 | a rendered key can be read back whatever the name holds, ':' included |
| CacheKey.KeyIsIdentity | dns_server.go:192-210 | a query has a key exactly if it asks one question and carries no EDNS option; two queries share one exactly when they agree on the name ignoring case, type, class, the RD, CD and AD bits, and the EDNS size, version and DO bit, no OPT record reading as 0, 0 and no DO |
| Lifetime.LifetimeIsGreatest | upstream.go:66-114 | a positive lifetime exactly for cacheable messages, and the greatest within the cap, every record TTL and, for NXDOMAIN (3) and for NOERROR (0) without an answer, the minimum of the last SOA (section 5 of RFC 2308) |
| Lifetime.OnlyNegativeNeedsSoa | upstream.go:97-113 | NXDOMAIN, and NOERROR without an answer, are kept only with an SOA and no longer than its minimum; for every other message the lifetime is the cap or the TTL of some record |
| Lifetime.DurationsFit | upstream.go:109-113 | the nanosecond products of lifetimes never wrap an int64 |
| Lifetime.LiveRecordsAge | upstream.go:21-33 | the clock is read before the table is locked, so the entry found may be younger than the reading: every non-OPT record is aged by exactly the whole seconds since it was stored, which leaves at least 1, exactly when the reading did not come a whole second (modulo 2^32) before the storing; otherwise the difference wraps and the record gets what its TTL and the early seconds exceed 2^32 by |
| Lifetime.LiveRecordsKeepASecondIff | upstream.go:21-33 | for TTLs below 2^31 (section 8 of RFC 2181) and readings less than 2^31 seconds early: at least 1 exactly when the reading came less than a second before the storing |
| Lifetime.OptFlagsSurviveIff | upstream.go:116-130 | on a hit the TTL field of any OPT record in any section, which holds flags, comes back unchanged exactly when it is 0 or no whole second lies between reading and storing |
| ResponseCache.MessageCacheTTL | upstream.go:66-114 | the scan over the message on the heap computes `LifetimeOf`, of which Lifetime.LifetimeIsGreatest says what it is |
| ResponseCache.DecrementMessageTTL | upstream.go:116-130 | ages the message in place |
| ResponseCache.Cache.GetCached | upstream.go:17-35 | the lookup as a step on the table, for any clock reading; the message returned is fresh and aged |
| ResponseCache.Cache.SetCache | upstream.go:43-64 | the insertion as a step on the table, after giving up an entry when full; the stored message is a copy |
| ResponseCache.Cache.ClearCache | upstream.go:37-41 | the table is emptied |
| ResponseCache.StoreKeepsSize | upstream.go:52-63 | storing keeps the table within its size |
| ResponseCache.StoringCostsOne | upstream.go:43-64 | a message that may be kept is kept until its lifetime has passed, nothing else is added or changed, and at most one other entry goes, only from a full table |
| ResponseCache.OutsideWritesDoNotReachTheCache | upstream.go:31-63 | whatever callers do to messages they passed in or were given, the stored table stays as it was |
| Addresses.IpInList | dns_policy.go:150-174 | some entry holds the address, as a network, an address or the same text |
| Addresses.ContainsIsInterval | dns_policy.go:157-162 | a network holds exactly one aligned interval of its family |
| Addresses.SpellingDoesNotMatter | dns_policy.go:150-174 | an entry that is an address or a network holds or does not hold an address however that is spelled |
| Addresses.NetworkHolds | dns_policy.go:157-162 | an entry that is a network holds exactly the addresses from its first to its last |
| Addresses.TextHolds | dns_policy.go:157-171 | where the client or the entry is no address, only the same text, trimmed, counts |
| Addresses.LanIntervals | dns_policy.go:191-197 | the IPv4 addresses that count as local, as intervals |
| Addresses.LanIntervals6 | dns_policy.go:191-197 | the IPv6 addresses that count as local, as intervals |
| Answers.ClientAllowedIff | dns_policy.go:199-207 | a client is let in exactly if it is on the whitelist, or not only the whitelist counts and it is in the LAN where only the LAN is let in |
| Resolver.IsAnswerBlocked | dns_policy.go:423-445 | some A or AAAA answer record has an address that BlockedIPs holds |
| Answers.AnswerBlockedIff | dns_policy.go:423-445 | a message is refused exactly if the answer section has an A or AAAA record whose address BlockedIPs holds, as this text or as an address or network |
| Answers.ForwardIsFirst | upstream.go:240-263 | the first acceptable reply is passed on |
| Answers.ForwardFailsOnlyAlone | upstream.go:264-266 | a server failure when no reply is acceptable |
| Answers.UpstreamAnswers | dns_server.go:165-189 | a query answered from upstream is given the first acceptable reply or a server failure, or is blocked if that holds a blocked address; exactly a reply given that is no server failure goes on to be stored, where the query has a key and the cache is on |
| Answers.FoundWhileLive | upstream.go:17-30 | over every run a query finds an entry exactly while the cache is on, its key has one, and its lifetime has not passed at the reading; one whose lifetime has passed goes |
| Answers.HitsAreGiven | dns_server.go:142-163 | on every hit of every run one answer is given, as cached, with the id and the question of the query and with the code, flag, and names and kinds of all records stored |
| Answers.RecheckNeverFires | dns_server.go:143-153 | over every run a query that asks the cache is answered from it or goes on to the upstream servers; the re-check of a hit never fires, whenever the clock was read |
| Answers.HitsAge | upstream.go:17-35 | on every hit of every run, with reading the clock a step of its own: how each non-OPT record of the answer given is aged, with the exact condition for the age being right and for a TTL of at least 1; and the entry is younger than the configured cap |
| Answers.HitsKeepASecondIff | upstream.go:17-35 | within the bounds RFC 2181 sets for TTLs, a record of the answer given has at least 1 exactly when the clock was read less than a second before the entry was stored |
| Answers.HitsKeepOptFlagsIff | upstream.go:116-130 | the exact condition for OPT flags to come back unchanged in the answer given |
| Answers.EarlyReadingGetsZero | upstream.go:21-22 | a run in which a query reads the clock, another stores a second later, and the first is given a TTL of 0 for a fresh record |
| Answers.EntryAnswersQuery | dns_server.go:142-163 | whoever finds an entry under a query's key finds an answer to that question |
| Answers.RunsKeepInv | dns_server.go:57-189 | over every run of interleaved queries and configuration changes: the table is within its size; entries are accepted replies to their key's question free of blocked addresses; and every answer has its reason: refused for the limiter or the access policy, local, blocked under a profile the policy gives the client or for an address, or given to an allowed client whose call of the limiter was not one too many, for a name not blocked, without a blocked address, in the order of the checks |
| Answers.RepliesAnswer | dns_server.go:39-189 | every reply given in a run has the id of its query and repeats its question up to case |
| Answers.UnclearedEntryIsCaught | auth.go:215-227 | why a change clears the cache: were BlockedIPs extended without clearing, a hit whose answer holds the address would be blocked by the re-check, where now it is answered |
| RateLimit.RateLimiter.CapTimeHitMap | dns_policy.go:305-323 | stale entries go first, in any order, then one more if none was |
| RateLimit.StaleEntriesGoFirst | dns_policy.go:305-323 | an entry given up has no call after the cutoff as its last, but for one by force, and that only where every other entry has such a call |
| RateLimit.PruneInPlace | dns_policy.go:337-344 | the in-place loop keeps the hits after the cutoff |
| RateLimit.RateLimiter.RateLimited | dns_policy.go:325-348 | one call as a step on the table, only where the limiter is on with positive numbers and the client is known; room is made only for a new client among 10000 |
| RateLimit.RateLimitIsWindowCount | dns_policy.go:325-348 | with fixed settings and a clock that never goes back, a call is limited exactly when the client's calls after the cutoff, this one counted and those given up by force left out, exceed the allowance; up to 9223372036 seconds these are the calls of (now-W, now]; the table never exceeds its maximum |
| RateLimit.LogStepCounts | dns_policy.go:325-348 | with clock readings in any order: a call is limited exactly when the client's calls that still stand, with this one, exceed the allowance |
| RateLimit.AnswersCountStandingCalls | dns_policy.go:325-348 | the same over every run, the settings changing too: a call counts the earlier ones that are later than its cutoff and than that of every call of the client in between |
| RateLimit.CutoffIsWindowStart | dns_policy.go:330 | the cutoff is the window's start exactly up to 9223372036 seconds |
| RateLimit.CountsTheWindowIff | dns_policy.go:325-348 | where the limiter applies, every call of every run is limited as the window (now-W, now] says exactly when the window is at most 9223372036 seconds |
| RateLimit.NeverLimitsIff | dns_policy.go:325-348 | where it applies, no call of any run is limited exactly when the wrapped offset of the cutoff is not negative |
| RateLimit.HugeOffset | dns_policy.go:330 | which a window of 10000000000 seconds is an instance of |
| LoginThrottle.Throttle.LoginAllowed | runtime_api.go:118-131 | the answer and the entry left, other clients untouched |
| LoginThrottle.Throttle.NoteLoginFailure | runtime_api.go:133-166 | the entry left; room is made only for a new client among 10000, by expired entries, and by force only where no expired one is left |
| LoginThrottle.Throttle.ClearLoginFailures | runtime_api.go:168-172 | only the client's entry goes |
| LoginThrottle.RunsKeepInv | runtime_api.go:118-202 | checking and judging are separate steps, each with a clock reading before its lock: failures within a minute of a blocking one, and attempts that may still add to them, were in flight when it was counted |
| LoginThrottle.FailuresAreBounded | runtime_api.go:118-202 | with at most c attempts in flight at most 7 + 15c failures are counted in a window, if c is at most 1 or judgements lock in the order of their readings; and a client is admitted again within a minute of the last |
| LoginThrottle.AtMost22Failures | runtime_api.go:118-202 | one attempt after the other: at most 22, as first failure + (failures - 8) minutes <= last failure |
| LoginThrottle.BoundIsReached | runtime_api.go:118-202 | for every c at least 1 a run that gets all 7 + 15c: 22 for one, 37 for two |
| LoginThrottle.TwentyTwoIsBoundIff | runtime_api.go:174-202 | 22 bounds every run with at most c in flight exactly when c is at most 1 |
| LoginThrottle.LateJudgementExceeds | runtime_api.go:133-166 | for every c of at least 2 a run in which a judgement locks a minute after its reading, ends a later block, and 7 + 16c - 1 failures are counted |
| LoginThrottle.BoundInAnyOrderIff | runtime_api.go:118-202 | whatever the order of judgements, 7 + 15c bounds every run with at most c in flight exactly when c is at most 1 |
| Counters.Counting.AddStat | main.go:574-588 | Queries and at most one other counter grow by one |
| Counters.Counting.EvictOldestClient | dns_policy.go:239-255 | a client seen longest ago is dropped |
| Counters.Counting.TrackClient | dns_policy.go:257-288 | room is made for a new client, then the client's counters and time are updated |
| Counters.Counting.ClearDenied | clients_api.go:211-227 | exactly the clients not allowed go, and are counted |
| Counters.CountersAreConserved | dns_server.go:57-189 | at every interleaving point each global counter is the number of queries so far with its outcome; each outcome, refused and trolled ones apart, is counted in flight, at its client or gone with it, once; no client column exceeds that; at most 10000 clients |
| Counters.SavedBoundIff | config.go:790-824 | for global counters copied before the clients, a client column of the saved file is within its global counter exactly when no more queries were counted in between than are then in flight or gone with their client |
| Counters.SavedBoundHoldsAtRest | config.go:790-824 | so always when no query was counted between the two copies |
| Counters.SavedClientsMayExceed | config.go:790-824 | and not otherwise: one query in between is enough |
| Accounts.UsernameMeans | auth.go:45-55 | a user name has 1 to 64 bytes and neither blanks nor control characters, so that nothing is trimmed from it |
| Accounts.ValidateConfig | config.go:321-337 | no issue is found exactly when every user has a valid name, the role admin or viewer and a hash, the lower-cased names are distinct, and the other settings are valid |
| Accounts.Server.FindUser | auth.go:36-43 | the first user with exactly this name |
| Accounts.Server.CountAdmins | auth.go:57-65 | the number of administrators |
| Accounts.Server.RevokeUserSessions | auth.go:67-75 | exactly the user's sessions go |
| Accounts.Server.SessionFromRequest | auth.go:77-93 | a live session, or nothing and the token forgotten |
| Accounts.Server.AddUser | runtime_api.go:259-288 | POST computes `Post`; Requests.PostedIsAppended says what it does |
| Accounts.Server.PatchUser | runtime_api.go:289-350 | PATCH computes `Patch`; Requests.PatchedIsChanged says what it does |
| Accounts.Server.DeleteUser | runtime_api.go:351-377 | DELETE computes `Delete`; Requests.DeletedIsGone says what it does |
| Accounts.Server.AdmitSession | runtime_api.go:203-226 | expired sessions go, the oldest if still full, then the new one is added, stamped by the earlier of the two clock readings |
| Accounts.Server.PatchClient | clients_api.go:134-174 | name and whitelist are edited before the profile is looked up and may be refused |
| Accounts.Server.ConfigGuard | auth.go:202-230 | a 2xx answer that reaches the client means valid, saved and the cache empty; a failed validation or save means the snapshot is back, disk and cache untouched and none of the handler's answer sent |
| Accounts.RunsKeepInv | auth.go:202-230 | over every run of logins, logouts, user and client edits and rollbacks: lower-cased names distinct, every session names a current user with that user's current role, at most 1024 sessions, disk always valid, and a positive administrator count never becomes zero |
| Requests.DeletedIsGone | runtime_api.go:351-377 | DELETE is refused for the only user and the only administrator; otherwise the sessions of that user, and no others, end, and where the rest is valid and saved the user is gone from memory and disk, nobody is left with that name in any case, and all others are the same in the same order |
| Requests.NobodyIsDeleted | runtime_api.go:351-377 | DELETE for nobody is answered 404 and changes nothing |
| Requests.NameWithoutUser | auth.go:36-43 | in every run a name that no user bears has no session, so nobody can be logged in under a deleted name |
| Requests.PostedIsAppended | runtime_api.go:259-288 | the exact status of a POST; an accepted and saved one appends exactly this user, a viewer unless told otherwise, and ends no session |
| Requests.PatchedIsChanged | runtime_api.go:310-349 | the exact status of a PATCH for a user that is there; an accepted one ends exactly that user's sessions, and saved it changes exactly that user: the name, role and password that were given, and nothing else |
| Requests.PatchIsRefused | runtime_api.go:289-350 | PATCH with a malformed request, or for nobody, changes nothing |
| Requests.ClientIsEdited | clients_api.go:134-174 | a saved edit sets or clears exactly this client's name and profile, and puts it on the whitelist once or takes it off |
| Requests.LoginCostsTheOldest | runtime_api.go:203-226 | a login gives a session of twelve hours and costs at most one live session, only where there were 1024, one that would have expired no later than any other |
| Accounts.SessionHasOneUser | auth.go:77-93 | whoever bears a session's user name in any case is that user, with the session's role |
| Requests.MemoryPartsFromDiskIff | auth.go:213-229 | after a request for users or for a client memory and disk part exactly when it asks for a profile that is not configured and would change the client's name or the whitelist |
| Requests.RefusedEditStays | clients_api.go:134-169 | a request that is answered 404 with the client's name set in memory and not on disk |
| Requests.FoldDistinctIff | runtime_api.go:259-350 | names distinct under the folding PATCH compares by stay so through every request but a valid POST, saved, of a name that is new but folds to one taken; all of it can be told beforehand |
| Requests.LongSIsAccepted | config.go:321-329 | beside the user "s" a POST of the long s is valid and saved, and the two names fold alike |
| Passwords.Pbkdf2Sha256 | config.go:153-175 | the nested loops compute the derived key |
| Passwords.OneBlock | config.go:157-171 | one block, folded in place, is T_i of section 5.2 of RFC 8018 |
| Passwords.BlockIsParity | config.go:157-171 | a bit of T_i is set exactly if it is set in an odd number of the chained HMACs |
| Passwords.FirstIterations | config.go:157-171 | the first block after one, two and three iterations, from the salt and the block number on |
| Passwords.KeyByte | config.go:153-175 | byte k of the key is byte k mod 32 of block k / 32 + 1 |
| Passwords.ShorterKeyIsPrefix | config.go:174 | a shorter key is the beginning of a longer one |
| Passwords.IntIsBlockNumberIff | config.go:160 | the four bytes hashed are the block number exactly below 2^32 |
| Base64.DecodeOfEncode | config.go:127 | decoding undoes encoding (section 5 of RFC 4648) |
| Base64.LettersAreInOrder | config.go:127 | the alphabet is the URL-safe one |
| Base64.LettersAreBits | config.go:127 | the letters are the bits of the bytes, most significant first, without padding letters |
| Base64.DecodesIff | config.go:145 | text is decoded exactly if, without line breaks, all are letters and no single one is left over |
| Passwords.PartsOfHash | config.go:130-134 | a stored hash splits back into its four parts |
| Passwords.ScanOfDecimal | config.go:142 | an iteration count written in decimal is read back as long as it fits an int, whatever but a digit follows |
| Passwords.VerifiesIff | config.go:136-151 | a stored text of four parts verifies a password exactly if it names the scheme, asks for at least 10000 iterations, and holds the key that password and salt derive |
| Passwords.FourParts | config.go:137-140 | and text that verifies any password has those four parts |
| Passwords.VerifyOfHashIff | config.go:130-151 | what was stored for one password verifies another exactly when both derive the same key, so always the same password |
| Persist.NoRequestIsLost | config.go:836-875 | over every interleaving, changes made before a request are copied, or a token is pending, or the copy is still to be taken; the file only gains changes |
| Persist.FinalFlushHoldsAll | config.go:843-880 | when the worker has returned and the final write worked, disk holds every change made before the stop channel closed |
| Persist.StopIsMemoryAtClosing | config.go:877-880 | those changes are what memory held when the channel was first closed |
| Persist.RestIsSaved | config.go:843-875 | at rest, with no newer change and the last write good, disk equals memory |
| Persist.SavedIff | config.go:790-834 | at any point disk equals memory exactly when some write that worked had copied memory as it now is, or nothing has changed |
| Persist.StoppingWorkerMoves | config.go:843-880 | once stopping, the worker is never stuck before it returns |
| Persist.ReturnIsNear | config.go:843-880 | it returns within 12 moves of its own and two saves, but for six more moves and one more save for each select that passes over the closed channel |
| Persist.FailedWriteIsNotRetried | config.go:843-875 | a run that comes to rest with a requested change in memory only |
| Lifecycle.Registry.RegisterDnsServer | lifecycle.go:39-59 | listed at the end, or closed if it comes too late; nothing handed over is lost |
| Lifecycle.Registry.RegisterHttpServer | lifecycle.go:61-81 | the server and its listener, if any, likewise |
| Lifecycle.Registry.RegisterProxyListener | lifecycle.go:83-95 | likewise |
| Lifecycle.Registry.Stop | lifecycle.go:97-134 | closes every listed item, once however often it is called; all that was ever handed over is then closed exactly once |
| Lifecycle.AllClosedInTheEnd | lifecycle.go:39-135 | once Stop's loops and all register calls have finished, every item ever handed over is closed exactly once, and nothing else |
| Lifecycle.ListsStayAfterStop | lifecycle.go:39-108 | the registered lists never change after stopped is set |
| Lifecycle.NeverClosedTwice | lifecycle.go:39-135 | at no time have Stop and the register calls closed an item twice |
| Lifecycle.SomeoneMoves | lifecycle.go:39-135 | the two locks never bring all to a halt |

## Left out

- Text.Lower: in rules, cache keys and the comparison of questions it lower-cases ASCII letters only; Go's Unicode lower-casing and case folding agree with it on such text.
- Rules.WildcardMeaning: general regular expressions are a parameter; only the text generated for wildcards, and user expressions of the same anchored form, have a concrete meaning.
- Gravity.CompactListInPlace: fetching, parsing and caching of list files is not part of this model, and neither is the choice between gravity and the rule tables for remote and local lists.
- Blocking.RuleTables.RemoveBlockedRule: the pattern slice is a sequence updated at a position, so aliasing of its backing array is not captured.
- Decision.ScheduledDecision: whether a rule is active at the time is part of the rule's value; calendars and clocks are not modelled.
- Layers.LimitedDecision: a rule keeps only its last source, so under a profile that restricts blocklists a name can pass although it was also added from a list the profile names.
- ResponseCache.OutsideWritesDoNotReachTheCache: the three sections of a message are stretches of one sequence of records, no record repeats within a message, and nil records and messages do not occur.
- Answers.RunsKeepInv: portal, safe-search, local records and troll answers are given with the request; whether a scheduled rule is active is part of the configuration and stays while queries are in flight; a handler that edits and then refuses is taken to leave cache settings and BlockedIPs alone, and edits from the console, which do not pass the guard, are not steps.
- Answers.ForwardIsFirst: targets are tried in a random order, which the sequence of replies stands for; a retry over TCP is one reply.
- RateLimit.RateLimitIsWindowCount: takes calls in the order of their clock readings; RateLimit.AnswersCountStandingCalls is the law for any order.
- LoginThrottle.FailuresAreBounded: for one client whose entry is not given up for capacity; with several attempts in flight no other bound is given for judgements that lock out of the order of their readings.
- Counters.CountersAreConserved: counters are unbounded, so the wrap-around of an int64 is not modelled; runs start from zero, not from a saved file.
- Accounts.Server.ConfigGuard: the snapshot is taken to equal the configuration it was made from, and request bodies arrive decoded; the audit entry is not modelled; handlers other than those for users and clients are one request that may leave any other settings with any status.
- Accounts.RunsKeepInv: user edits from the command line and the console, which neither revoke sessions nor roll back the same way, are not steps; authentication is taken to be enabled.
- Passwords.VerifyOfHashIff: HMAC-SHA-256 is any function to 32 bytes; constant-time comparison is equality.
- Passwords.IntIsBlockNumberIff: keys of 2^32 or more blocks, which RFC 8018 refuses, are derived as coded, with block numbers repeating.
- Persist.NoRequestIsLost: a part is the list of changes made to it; encoding and the replacement of the file are one write that works or leaves the file alone, so the fallback for Windows is out.
- Persist.FinalFlushHoldsAll: the loops that copy the log, audit and client entries are one step for each part, under its lock.
- Lifecycle.AllClosedInTheEnd: closing is one step that works; time-outs of a shutdown, the closing of sockets after a failed shutdown, and the wait for the save worker are out.
- Lifecycle.NeverClosedTwice: counts the closes that Stop and the register calls make themselves; shutting an HTTP server down also closes its listeners, which Stop then closes again.
- HTTP routing, cookies, DoH framing, proxies, TLS, backups, statistics pages, the query log, anomaly notes, the console and the command line.
