# ZTNA flow discovery: a Dafny model of its streaming core

The system turns firewall and identity logs into a live Sankey view of who talks to which
application. This project models the parts of it that are hard to get right by reading one function
at a time, and proves what they keep over every input, every run and every interleaving.

| module | file | what it models |
|---|---|---|
| `Framing`, `Syslog` | `Framing.dfy`, `Syslog.dfy` | TCP syslog framing, octet counting (section 3.4.1 of RFC 6587) mixed with newlines (section 3.4.2 of RFC 6587), into a drop-oldest queue |
| `BoundedQueue` | `BoundedQueue.dfy` | the bounded `asyncio.Queue` and its drop-oldest insertion |
| `Windower` | `Windower.dfy` | tumbling buckets, flushes, loss counters |
| `Identity`, `IdentityService` | `Identity.dfy`, `IdentityService.dfy` | the in-memory identity index with lazy eviction, and the api's query over the same events |
| `Groups`, `Aggregation`, `Aggregator`, `CacheRuns` | `Groups.dfy`, `Aggregation.dfy`, `Aggregator.dfy`, `CacheRuns.dfy` | group index, least common group, link aggregation, and the memo cache over whole runs |
| `Publisher` | `Publisher.dfy` | cutting the stream into deltas and building their links |
| `Pipeline`, `PipelineTrace`, `PipelineOrder`, `PipelineLoss`, `PipelineCache`, `Stages` | `Pipeline.dfy`, `PipelineTrace.dfy`, `PipelineOrder.dfy`, `PipelineLoss.dfy`, `PipelineCache.dfy`, `Stages.dfy` | all correlator tasks as one state machine (conservation, composition of its parts, order, loss flags, and the same machine with group index and cache), and the label stage and demultiplexer as code |
| `Resolver`, `Catalogue` | `Resolver.dfy`, `Catalogue.dfy` | PTR worker (token bucket, cache protocol, its three stores), application catalogues and the label of a flow |
| `PageWalks` | `PageWalks.dfy` | keyset pagination as whole walks |
| `Prelude`, `Collections` | `Prelude.dfy`, `Collections.dfy` | shared vocabulary: options, ordered dictionaries, sums |

Objects whose methods update fields are classes; each method is tied to a function of the old state,
and the theorems are lemmas about those functions. Concurrency is a state machine whose steps are the
stretches of one task between two awaits. Times are integer seconds (reals in the resolver), queue
sizes follow asyncio (`maxsize <= 0` is unbounded), Python's `int(bytes)` is modelled with its
underscores, trailing white space and 4300-digit limit, and string order is by code point. Clock
readings, table contents, sleep lengths, labels from the application resolver, `str.lower` and the
choices of the scheduler are parameters.

## Where the code and its documentation differ

The model follows the code. Each difference has a lemma that shows it and, where one exists, the exact
condition under which the documented behaviour holds.

- `IdentityService` is documented as having the index's semantics. It ignores stop events, treats the
  end of a time to live as inclusive and sees what the index has evicted (`DisagreeAfterStop`,
  `DisagreeOnTtlEnd`, `EvictionVisible`). At every instant of every history, the two agree on
  confidence and start exactly when some row that ties with the returned one is live in the index
  (`AnswersAgreeIff`), and on user, confidence, source and remaining time exactly when some latest live
  row of that confidence has its user, source and end (`SameAnswerIff`, `OnlyAnswerIff`), which need
  not be the row itself (`SameReplyOtherRow`). Tied rows may name different users (`TiedRowsDisagree`).
- Overflow is documented as making a delta `lossy` with a `dropped_count` hint. Rows carry running
  counts that the publisher adds up, and a flush may evict its own first rows. When it evicts k rows
  from a queue of size C, the rows it leaves queued report k(k-1)/2, less e(e-1)/2 for e = k - C when
  k > C (`ReportIs`). That is k exactly when k = 0, or k = 3 and C is not 1 (`ReportIsTrueIff`); some
  row is lossy exactly when k is at least 2 (`LossyIff`). Over a run all counts add up to the sum of
  k(k-1)/2 over the flushes (`DropsAddUp`). Evictions by the demultiplexer are never flagged
  (`OnlyWindowerFlags`, `DemuxDropsSilently`).
- Group changes are documented as clearing the cache so that the next window is up to date. The clear
  may run before the awaited reload, and a delta built in between keeps the old decision alive
  (`ClearBeforeReloadIsStale`). After the reload it may meet rows labelled before it, and then a
  decision from old groups and new sizes stays (`ReloadBeforeClearIsStale`, `BothOrdersGoStale`,
  `KeptUntilClear`). A delta is the one built without a cache exactly when, at each destination, the
  decision cached for its known users labels them as a fresh one would (`PublishedFreshIff`, and
  `SameStepIff` for the whole pipeline); a clear that finds nothing labelled from an older load makes
  this hold until a reload changes something (`InvisibleAfterClear`).
- The catalogue id under `dns:saas` is read as the match of the name under `dns:ptr`. The keys expire
  separately, the worker loads the catalogue only when it starts, and the correlator reloads its own.
  Every label read is the correlator's match for the name held exactly when an id cannot outlive its
  name and, for each name the worker matches, the correlator's match has the stored id whenever it
  knows that id (`LabelsFollowIff`). Equal times to live, the default, do not ensure the first, and an
  edited pattern breaks the second (`EditedEntryDisagrees`).
- The raw flow listing is meant to page through all rows. The popped row is excluded again by the
  strict cursor comparison, so the walk is complete exactly when one page holds everything
  (`RawWalkCompleteIff`).
- A newline-framed line that begins with a digit is taken for an octet count; lines survive exactly
  when each is a `PlainLine` (`LinesSurviveIff`). A count that `int` refuses, or that no further byte
  can make it read, blocks the connection for good, and nothing else does (`NeverDeliversIff`).

## Model

| member | source | states |
|---|---|---|
| BoundedQueue.KeepSnoc | correlator/src/correlator/pipeline/windower.py:88-97 | inserting a sequence drop-oldest equals inserting its items one at a time: same survivors, same evictions, same count |
| BoundedQueue.AsyncQueue.PutDropOldest | correlator/src/correlator/pipeline/windower.py:88-97 | the item is always accepted, at most the single oldest item is lost, the second put cannot fail; FIFO history is conserved |
| Framing.NextTurn | common/src/ztna_common/syslog_receiver.py:48-71 | every delivered or skipped frame consumes at least one byte and never more than there are |
| Framing.LineTurn | common/src/ztna_common/syslog_receiver.py:64-71 | a line that does not begin with a digit is delivered without its trailing CRs, or skipped when nothing else is left |
| Framing.BlankLine | common/src/ztna_common/syslog_receiver.py:68-71 | any number of CRs and an LF deliver nothing and are consumed |
| Framing.CountTurn | common/src/ztna_common/syslog_receiver.py:50-62 | a readable count, a space and as many bytes as it says deliver exactly those bytes |
| Framing.NextTurnStable | common/src/ztna_common/syslog_receiver.py:47-72 | a complete frame at the head of a buffer is the same frame whatever bytes follow |
| Framing.DrainSplit | common/src/ztna_common/syslog_receiver.py:33-38 | draining a + b equals draining a and then its residue followed by b |
| Framing.ChunkInvariance | common/src/ztna_common/syslog_receiver.py:31-38 | for every way of cutting a stream into chunks, messages and final residue are those of draining the whole stream at once |
| Framing.ParseLenIff | common/src/ztna_common/syslog_receiver.py:54-57 | a header is read as v if and only if it is digits with single underscores between them that write v, then white space, with at most 4300 digits |
| Framing.ParseLenDecimal | common/src/ztna_common/syslog_receiver.py:54-57 | the header parser inverts canonical decimal printing up to the interpreter's digit limit and refuses beyond it |
| Framing.RoundTrip | common/src/ztna_common/syslog_receiver.py:47-72 | any mix of counted bodies and plain lines (with any number of trailing CRs), followed by anything, decodes to the bodies in order |
| Framing.RoundTripChunked | common/src/ztna_common/syslog_receiver.py:31-72 | the same through any chunking, with empty residue |
| Framing.LinesSurviveIff | common/src/ztna_common/syslog_receiver.py:64-71 | any sequence of newline-framed lines comes out as sent if and only if each is non-empty, has no LF, does not end in CR and does not begin with a digit |
| Framing.JammedForever | common/src/ztna_common/syslog_receiver.py:50-63 | a digit followed by a header that `int` refuses, or can never read, is absorbing: no continuation delivers anything |
| Framing.NeverDeliversIff | common/src/ztna_common/syslog_receiver.py:47-72 | no continuation of a buffer ever delivers a message if and only if it delivers none itself and its residue is so jammed |
| Syslog.SyslogReceiver.Enqueue | common/src/ztna_common/syslog_receiver.py:91-99 | newest message accepted, `backpressure_drops` counts exactly the evictions |
| Syslog.SyslogReceiver.DrainBuffer | common/src/ztna_common/syslog_receiver.py:47-72 | the loop delivers exactly `Drain`'s messages in order, the queue is the drop-oldest suffix, drops are counted |
| Syslog.OwnArrivals | common/src/ztna_common/syslog_receiver.py:24-44 | whatever other peers put into the shared queue in between, and however the stream is cut into reads, a connection's own messages and its leftover are those of draining its whole stream at once |
| Syslog.SyslogReceiver.HandleTcpClient | common/src/ztna_common/syslog_receiver.py:24-44 | the accepted messages are exactly that interleaving of own and other messages, whatever consumers take meanwhile |
| Windower.BucketStartIs | correlator/src/correlator/pipeline/windower.py:61-65 | the bucket of an instant is the one multiple of the window that holds it |
| Windower.Accounting | correlator/src/correlator/pipeline/windower.py:67-120 | over every run, rows emitted plus open buckets carry exactly what came in, in total and at each (bucket, key), late events included |
| Windower.AccountingPerKey | correlator/src/correlator/pipeline/windower.py:67-120 | per bucket and key: emitted rows plus the open accumulator equal the bytes, packets and count of that key's events |
| Windower.OpenIsFold | correlator/src/correlator/pipeline/windower.py:109-120 | a key is open exactly when it has events since its bucket was last flushed, and its accumulator summarises exactly those |
| Windower.EmittedIsFold | correlator/src/correlator/pipeline/windower.py:67-120 | a row is emitted by a run if and only if some input closed its bucket while its key had events since the bucket's previous flush, and it carries exactly their summary |
| Windower.EmittedCarriesFirstSeen | correlator/src/correlator/pipeline/windower.py:78-84 | every emitted row carries the first non-empty application, name and action of those events |
| Windower.SummaryAddsUp | correlator/src/correlator/pipeline/windower.py:113-115 | the summary of any events has the sums of their bytes and packets and their number |
| Windower.CarriesFirstSeen | correlator/src/correlator/pipeline/windower.py:116-119 | in the summary of any events, application, name and action are each the first non-empty value |
| Windower.FlushOnlyClosed | correlator/src/correlator/pipeline/windower.py:67-71 | a flush emits in bucket order only buckets whose window has passed, and leaves none that is a full window overdue |
| Windower.ClosesIffPassed | correlator/src/correlator/pipeline/windower.py:67-71 | in every run an input closes a bucket if and only if it is open and its window has passed |
| Windower.EmittedInOrder | correlator/src/correlator/pipeline/windower.py:67-120 | with events in order and ticks at any time, rows leave in bucket order over the whole run and only the latest event's bucket can be open |
| Windower.TickFreeRuns | correlator/src/correlator/pipeline/windower.py:101-120 | in order and without ticks exactly one bucket is open, all rows lie before it, and no key is emitted twice for a bucket |
| Windower.QueueAfterFlush | correlator/src/correlator/pipeline/windower.py:88-97 | the queue after a flush is what is left of the old rows and then the flushed rows that survive |
| Windower.ReportIs | correlator/src/correlator/pipeline/windower.py:72-99 | closed form of the drops that the surviving rows report, as the publisher will add them up |
| Windower.ReportIsTrueIff | correlator/src/correlator/pipeline/windower.py:85-99 | the surviving rows report the true number of evictions if and only if there were none, or three and the queue has more than one place |
| Windower.LossyIff | correlator/src/correlator/pipeline/windower.py:85-99 | some surviving row is lossy if and only if the flush evicted at least two rows; no row admits the last eviction |
| Windower.FlowWindower.EmitReady | correlator/src/correlator/pipeline/windower.py:67-99 | closed form of a flush: surviving queue, stamp of every row, remaining buckets, counter back to zero |
| Windower.FlowWindower.Receive | correlator/src/correlator/pipeline/windower.py:108-120 | one turn on an event is the run's step: buckets, rows entered and queue |
| Identity.IdentityIndex.Insert | correlator/src/correlator/pipeline/identity_index.py:42-59 | new trees for logons, stops, zero times to live, and the events that raise |
| Identity.IdentityIndex.Invalidate | correlator/src/correlator/pipeline/identity_index.py:61-70 | exactly the user's bindings of that address go, or all of them for a stop without a user |
| Identity.IdentityIndex.Resolve | correlator/src/correlator/pipeline/identity_index.py:72-97 | answers with a binding of maximal (confidence, start) among those covering the instant, None exactly when there is none, and evicts what has expired |
| Identity.IdentityIndex.Size | correlator/src/correlator/pipeline/identity_index.py:99-100 | the number of (address, binding) pairs held |
| Identity.TreeIsLog | correlator/src/correlator/pipeline/identity_index.py:42-83 | after any run each tree holds exactly the bindings inserted with no later stop and no later probe at or past their end |
| Identity.BindingsAreLog | correlator/src/correlator/pipeline/identity_index.py:99-100 | the counted set is exactly that of the log |
| Identity.OtherTreesUntouched | correlator/src/correlator/pipeline/identity_index.py:42-83 | no operation on one address changes another's tree |
| Identity.WithoutProbesIsRetained | correlator/src/correlator/pipeline/identity_index.py:42-70 | an index that is never probed holds exactly the bindings the event log retains |
| Identity.EvictionInvisible | correlator/src/correlator/pipeline/identity_index.py:72-97 | at an instant no earlier probe of the address has passed, candidates equal those of an index that never evicts |
| Identity.EvictionInvisibleIff | correlator/src/correlator/pipeline/identity_index.py:72-97 | for every history and instant: candidates equal those of an index that never evicts if and only if no retained binding covering the instant was passed by a probe since it last arrived |
| Identity.EvictionVisible | correlator/src/correlator/pipeline/identity_index.py:77-83 | behind any earlier probe there is a history in which eviction has lost a covering binding |
| IdentityService.HitsAreRows | api/src/api/services/identity_service.py:23-34 | for logon histories and instants off any end, the index's candidates are exactly the matching rows |
| IdentityService.HitIsRow | api/src/api/services/identity_service.py:23-34 | for every history each candidate of the index is a matching row |
| IdentityService.HitsAreBinding | api/src/api/services/identity_service.py:23-34 | for every history and instant the index's candidates are the intervals of exactly the matching rows that are still binding: named, before their end, neither stopped nor evicted since |
| IdentityService.BindingUnprobed | api/src/api/services/identity_service.py:13-17 | at an instant no probe has passed, a row is still binding if and only if it is before its end and not stopped since: eviction plays no part |
| IdentityService.SameCandidatesIff | api/src/api/services/identity_service.py:23-34 | for every history and instant index and query choose from the same candidates if and only if every matching row is still binding |
| IdentityService.AnswersAgreeIff | api/src/api/services/identity_service.py:23-37 | for every history and instant: the index's best binding has the confidence and start of the returned row if and only if some matching row of that confidence and start is still binding |
| IdentityService.SameAnswerIff | api/src/api/services/identity_service.py:23-53 | for every history and instant: the index may return the service's user, confidence, source and remaining time if and only if some live row has that user, confidence, source and end and no live row of that confidence starts later |
| IdentityService.OnlyAnswerIff | api/src/api/services/identity_service.py:23-53 | and it can return nothing else if and only if there is a latest live row of that confidence and all such rows have that user, source and end |
| IdentityService.SameReplyOtherRow | api/src/api/services/identity_service.py:28-53 | the replies may agree although the returned row was stopped: a late logon takes over |
| IdentityService.SilentIff | api/src/api/services/identity_service.py:35-37 | for every history and instant the index answers nothing if and only if no matching row is still binding |
| IdentityService.IndexAnswersIff | correlator/src/correlator/pipeline/identity_index.py:84-97 | for every history and instant the index's answers, field by field, are those of the live rows that no live row outranks: user, confidence, source, start and time to the end |
| IdentityService.BothAnswer | api/src/api/services/identity_service.py:35-37 | on such histories one answers exactly when the other does |
| IdentityService.AgreesWithIndex | api/src/api/services/identity_service.py:23-53 | on logon histories: same confidence and start, and the same user or remaining time when equally ranked rows share it |
| IdentityService.TiedRowsDisagree | api/src/api/services/identity_service.py:31-46 | without those hypotheses users and remaining times may differ |
| IdentityService.DisagreeOnTtlEnd | api/src/api/services/identity_service.py:28-30 | at the end of every binding's time to live the query still answers and the index does not |
| IdentityService.DisagreeAfterStop | api/src/api/services/identity_service.py:28-31 | after every stop the query goes on naming the user the index removed |
| Groups.StrLessIff | correlator/src/correlator/pipeline/group_aggregator.py:35 | the comparison of strings is alphabetical by code point: at the first place where they differ the lesser ends or has the lesser character |
| Groups.LcdIsLeastCommon | correlator/src/correlator/pipeline/group_aggregator.py:8-38 | the result is g if and only if g is a non-excluded group of all users, precedes every other by size and then alphabetically, and passes the single-user floor |
| Groups.LcdMonotone | correlator/src/correlator/pipeline/group_aggregator.py:26-38 | fewer users get a group ranked no higher, unless the single-user floor refuses it, and then the larger set's group is above the floor too |
| Groups.LcdLocal | correlator/src/correlator/pipeline/group_aggregator.py:28-38 | the choice depends only on the groups of the users asked about |
| Groups.LcdCoversUsers | correlator/src/correlator/pipeline/group_aggregator.py:26-38 | with counted sizes the group contains all the users and its size is at least their number |
| Groups.GroupIndex.Load | correlator/src/correlator/pipeline/group_index.py:26-39 | groups are exactly the table's memberships, sizes count members, names are those of the last row |
| Groups.GroupIndex.CountSizes | correlator/src/correlator/pipeline/group_index.py:35-39 | each size is the number of users holding the group |
| Aggregation.FoldedIsGrouped | correlator/src/correlator/pipeline/group_aggregator.py:113-132 | accumulated links are exactly the groups of rows by (label, destination), with sums and user sets |
| Aggregation.ArrangedPermutes | correlator/src/correlator/pipeline/group_aggregator.py:62-107 | splitting by destination and strand neither loses nor repeats a row |
| Aggregator.AggregateIsGrouped | correlator/src/correlator/pipeline/group_aggregator.py:52-110 | in every mode and for every cache each link summarises the rows of its destination whose user bears its label |
| Aggregator.AggregateConserves | correlator/src/correlator/pipeline/group_aggregator.py:52-132 | bytes and flows into each destination, and in all, are those of the rows |
| Aggregator.AggregatePartitions | correlator/src/correlator/pipeline/group_aggregator.py:52-138 | user sets of a destination's links are disjoint and their counts sum to its distinct users |
| Aggregator.CacheInvisibleIff | correlator/src/correlator/pipeline/group_aggregator.py:89-101 | for every cache a call gives the links of a call without one if and only if, at each destination, the decision cached for its known users labels them as a fresh one would, that is, is equal to it or differs only for a single user named like the group |
| Aggregator.FlatSameIff | correlator/src/correlator/pipeline/group_aggregator.py:134-138 | finished links, whose users are only counted, are equal if and only if the links themselves are |
| Aggregator.CacheTransparent | correlator/src/correlator/pipeline/group_aggregator.py:89-101 | from a coherent cache a consistent batch gets exactly the links of a call without a cache |
| Aggregator.CacheWithCoherent | correlator/src/correlator/pipeline/group_aggregator.py:90-98 | such a call leaves the cache coherent |
| Aggregator.OrderIndependent | correlator/src/correlator/pipeline/group_aggregator.py:59-110 | in group and user modes links depend only on the multiset of rows |
| Aggregator.UnknownStrandSeparate | correlator/src/correlator/pipeline/group_aggregator.py:70-107 | deleting all unknown rows leaves every other link unchanged, in every mode |
| Aggregator.GroupAggregator.Aggregate | correlator/src/correlator/pipeline/group_aggregator.py:52-110 | builds those links and leaves exactly the decisions of this call added to the cache |
| CacheRuns.PublishedFreshIff | correlator/src/correlator/pipeline/group_aggregator.py:89-101 | in every state the next delta is the one built without a cache if and only if every decision cached for the known users of one of its destinations labels them as a fresh one would |
| CacheRuns.TransparentAfterClear | correlator/src/correlator/main.py:226-238 | after a clear that finds no stale row in flight, and until a reload changes the index, every delta is the one built without a cache, evictions included |
| CacheRuns.CachedDecisionShows | correlator/src/correlator/pipeline/group_aggregator.py:89-101 | a cached decision shows on the links of every delta in which its users are those of a destination |
| CacheRuns.KeptUntilClear | correlator/src/correlator/pipeline/group_aggregator.py:48-50 | nothing but a clear removes or changes a decision |
| CacheRuns.CacheIsLog | correlator/src/correlator/pipeline/group_aggregator.py:89-98 | over every run a decision is cached if and only if its users were those of a destination in some delta since the last clear, and it is the least common group by the rows and sizes of the first such delta |
| CacheRuns.ClearBeforeReloadIsStale | correlator/src/correlator/main.py:226-238 | clear, delta, reload: the links of the next delta of the same users bear the old decision, and equal the cache-free ones if and only if the new load labels them alike |
| CacheRuns.ReloadBeforeClearIsStale | correlator/src/correlator/main.py:226-238 | reload, clear, delta of rows labelled before: the next delta bears a decision of old groups and new sizes, and is right if and only if the new load labels its users alike |
| CacheRuns.BothOrdersGoStale | correlator/src/correlator/main.py:226-238 | two users who move from one group to another get wrong links in both orders |
| Publisher.CutsTheStream | correlator/src/correlator/pipeline/sankey_publisher.py:53-64 | for any order of rows: nothing lost, repeated or reordered, published times strictly increase, a batch starts in its own bucket and holds nothing later |
| Publisher.InOrderWhole | correlator/src/correlator/pipeline/sankey_publisher.py:53-64 | on rows in order every bucket is published whole in one delta |
| Publisher.PureIffInOrder | correlator/src/correlator/pipeline/sankey_publisher.py:53-64 | deltas never mix buckets if and only if rows arrived in bucket order |
| Publisher.DeltaConserves | correlator/src/correlator/pipeline/sankey_publisher.py:81-192 | in the legacy and in the group view a delta's links carry exactly the bytes and flows of its rows |
| Publisher.GroupLinkIff | correlator/src/correlator/pipeline/sankey_publisher.py:128-164 | a link is in a group delta if and only if some flow goes to its application under its label, and it has the bytes, flows and number of users of exactly those; the label is "unknown", the group decided for all known users of the application, or the user |
| Publisher.LegacyFlatIff | correlator/src/correlator/pipeline/sankey_publisher.py:81-124 | a link is in a legacy delta if and only if some flow goes from its address to its application, and it has the bytes and flows of exactly those and no users |
| Publisher.LegacyLinkIs | correlator/src/correlator/pipeline/sankey_publisher.py:81-102 | in the legacy view the link of an address and an application exists exactly when they have some flow, and carries exactly their bytes and flows |
| Publisher.SankeyPublisher.Receive | correlator/src/correlator/pipeline/sankey_publisher.py:56-64 | one turn is the cut's step, and the completed delta is built from the aggregator's state at that moment |
| Publisher.SankeyPublisher.Publish | correlator/src/correlator/pipeline/sankey_publisher.py:66-79 | nothing for an empty batch, otherwise one delta with the links characterised by GroupLinkIff or LegacyFlatIff, its loss flag and drop total, and the cache after it |
| Publisher.SankeyPublisher.BuildLegacyLinks | correlator/src/correlator/pipeline/sankey_publisher.py:81-112 | links per (address, application) with summed bytes and flows |
| Stages.LabelOne | correlator/src/correlator/main.py:77-109 | one turn is Fetch, Enrich and Forward: the flow put last carries the row's bucket, window, key, sums and loss fields, the application given, a user the index may name and that user's groups; one probe |
| Stages.DemuxOne | correlator/src/correlator/main.py:193-203 | every consumer gets the flow, losing at most its own oldest |
| Stages.DemuxBoth | correlator/src/correlator/main.py:193-203 | on the writer's and the publisher's queues that is the pipeline's Demux step |
| Pipeline.EndToEnd | correlator/src/correlator/main.py:71-109 | in every state of every interleaving, bytes and flows taken in equal those in open buckets, queues and the label stage, evicted, pending, and in the links of all deltas |
| Pipeline.EndToEndPerKey | correlator/src/correlator/main.py:193-203 | the same for each bucket and key alone, packets included, on the publisher's and on the writer's side |
| Pipeline.HealthyStep | correlator/src/correlator/main.py:240-275 | every step of every task keeps queue bounds, the cut, the deltas' totals and conservation through every lens |
| PipelineTrace.RunIsComposition | correlator/src/correlator/main.py:240-275 | every state of every run is the composition of its parts: the windower's run on what was taken in, rows labelled field by field in the order they left, both consumers' queues first in first out, the publisher's cut and deltas of what it took, the index's log |
| PipelineTrace.LossNeedsFullQueue | correlator/src/correlator/main.py:193-203 | a step evicts from a consumer's queue exactly when a copy finds it full, and then its oldest; the windower evicts only to fill its queue |
| PipelineTrace.UnboundedLosesNothing | correlator/src/correlator/main.py:240-246 | queues without a bound lose nothing in any run |
| PipelineTrace.QueuesInBounds | correlator/src/correlator/main.py:240-246 | in every state of every run each of the five queues keeps its bound, three by evicting and two because a put waits |
| PipelineTrace.NeverStuck | correlator/src/correlator/main.py:77-109 | while anything waits anywhere, some task can take it a step further |
| PipelineTrace.FlowsWereMade | correlator/src/correlator/main.py:100-109 | in every state of every run each flow queued, written, evicted, pending or in a delta was made of a fetched row by a step that gave it its application, a user that the index named at that moment and the groups found |
| PipelineOrder.InSequenceRun | correlator/src/correlator/main.py:71-109 | with events offered in order, everything in flight stays in bucket order in every interleaving, whatever ticks and evictions do |
| PipelineOrder.DeltasArePure | correlator/src/correlator/pipeline/sankey_publisher.py:53-64 | then every delta holds rows of one bucket only and published times strictly increase |
| PipelineOrder.LabelsIgnoreEviction | correlator/src/correlator/main.py:100-108 | then no probe has looked past the row being labelled, and its user is one an index that never evicts could name |
| PipelineLoss.OnlyWindowerFlags | correlator/src/correlator/main.py:193-203 | in every state of every run, while the windower has evicted nothing no delta is lossy or counts a drop, whatever the demultiplexer evicted |
| PipelineLoss.DeltaLossyIff | correlator/src/correlator/pipeline/sankey_publisher.py:113-162 | in every run a delta is lossy if and only if some flow of its batch counts a drop, and its drop count is the sum of theirs |
| PipelineLoss.DropsAddUp | correlator/src/correlator/pipeline/sankey_publisher.py:110-162 | in every state of every run, the drop counts in the deltas, on the way and on evicted rows add up to the sum of k(k-1)/2 over the flushes that evicted k rows |
| PipelineLoss.DemuxDropsSilently | correlator/src/correlator/main.py:193-203 | a run exists in which a flow is lost on the way to the publisher and the delta of its own window is neither lossy nor counts a drop |
| PipelineCache.SameStepIff | correlator/src/correlator/pipeline/sankey_publisher.py:128-164 | in every state of the pipeline with index and cache, a step is the one taken without a cache if and only if it builds no delta or all cached decisions used label as fresh ones would |
| PipelineCache.InvisibleAfterClear | correlator/src/correlator/main.py:226-238 | in every run of the whole pipeline, after a clear that finds no flow labelled from an older load and until a reload changes the index, every step of every task is the one taken without a cache |
| PipelineCache.RunRefines | correlator/src/correlator/main.py:226-275 | every run of the whole pipeline is a run of the cache machine on the flows in flight: labels, evictions, deltas, reloads and clears |
| PipelineCache.PublishedIsDelta | correlator/src/correlator/pipeline/sankey_publisher.py:128-192 | and the delta built has the links that machine publishes |
| PipelineCache.PipelineCacheIsLog | correlator/src/correlator/pipeline/group_aggregator.py:89-98 | so in every run of the pipeline a decision is cached if and only if its users were asked about since the last clear, and is the one made by the first delta that asked |
| Resolver.TakePays | resolver/src/resolver/resolver_worker.py:26-37 | tokens stay between zero and capacity, and a grant is paid with tokens or with elapsed time |
| Resolver.RateBound | resolver/src/resolver/resolver_worker.py:18-37 | in every window of every run, n grants are at most capacity plus rate times the elapsed time |
| Resolver.GrantIs | resolver/src/resolver/resolver_worker.py:28-37 | a call that finds tokens plus rate times elapsed time at least one is granted at once and leaves min(max(1, rate), that) - 1; any other is granted on waking and leaves none |
| Resolver.AtOnceIff | resolver/src/resolver/resolver_worker.py:28-37 | a timely call is granted on entry if and only if a whole token was owed |
| Resolver.BurstGranted | resolver/src/resolver/resolver_worker.py:18-37 | in every run, after an idle time of capacity / rate, as many calls as the capacity has whole tokens are all granted at the instant they come |
| Resolver.TokenBucket.Take | resolver/src/resolver/resolver_worker.py:26-37 | new tokens, new time stamp and the time of the grant, with and without sleeping |
| Resolver.LookupsSpaced | resolver/src/resolver/resolver_worker.py:54-87 | however often an address is queued and the worker restarted, lookups of it are at least the time to live apart unless storing the earlier result failed |
| Resolver.FailedWriteRepeats | resolver/src/resolver/resolver_worker.py:65-87 | after a failed write a job repeated at once looks up again within one token's time, and at once when the bucket holds two |
| Resolver.TableIsLog | resolver/src/resolver/resolver_worker.py:66 | over every run an address has a row if and only if some upsert for it went through, with the name of the latest or NULL when that lookup found none |
| Resolver.LabelsFollowNames | correlator/src/correlator/pipeline/app_resolver.py:119-135 | when an id cannot outlive its name and the lists agree, every label read at any two instants of any run, restarts and half-done jobs included, is the correlator's match for the name held |
| Resolver.LabelsFollowIff | resolver/src/resolver/resolver_worker.py:65-70 | for jobs that finish within d of storing the name, a worker that may restart with any of some lists, and any list of the correlator: that holds on every run if and only if d + saas_ttl <= ptr_ttl and the correlator's list agrees with each of them |
| Resolver.ResolverWorker.ProcessOne | resolver/src/resolver/resolver_worker.py:54-70 | cached addresses are left alone; others take a token, are looked up and stored under both keys and in the table, up to the write that fails; spacing is kept |
| Catalogue.SortedByIs | correlator/src/correlator/pipeline/app_resolver.py:63-68 | the sort orders and permutes |
| Catalogue.FirstHitIsBest | correlator/src/correlator/pipeline/app_resolver.py:63-92 | the first hit of the sorted list is the best hit of the catalogue, earliest loaded on ties, and None only if nothing matches |
| Catalogue.ContainsIff | correlator/src/correlator/pipeline/app_resolver.py:82-84 | a network holds the addresses of its family from its base on, two to its host bits of them |
| Catalogue.AppResolver.ManualHit | correlator/src/correlator/pipeline/app_resolver.py:77-92 | the covering application of greatest (priority, prefix length), earliest loaded on ties; None only if none covers or the address does not parse |
| Catalogue.AppResolver.Load | correlator/src/correlator/pipeline/app_resolver.py:57-69 | both lists sorted, and for each port and protocol the last default loaded |
| Catalogue.AppResolver.Resolve | correlator/src/correlator/pipeline/app_resolver.py:101-141 | the label is that of the first source that has one: manual application, pattern of the firewall's name, id stored for a non-empty PTR name, port default, plain address; the address is queued exactly when it has no PTR key and neither of the first two applies |
| Catalogue.EndsWithIff | correlator/src/correlator/pipeline/app_resolver.py:96-98 | a pattern ends a name if and only if the name is something followed by it |
| Catalogue.AppResolver.FindSaas | correlator/src/correlator/pipeline/app_resolver.py:94-99 | the loaded entry whose pattern ends the name, of greatest (priority, pattern length) and then least id; None exactly when no pattern does |
| Catalogue.SaasOrderIrrelevant | resolver/src/resolver/saas_matcher.py:17-26 | two loads of one catalogue with distinct ids, in any orders, match the same entry |
| Catalogue.PtrRouteIff | correlator/src/correlator/pipeline/app_resolver.py:126-135 | an id that the correlator's list holds leads to the entry it would itself match for a name if and only if its own match has that id |
| Catalogue.SameEntriesAgree | resolver/src/resolver/saas_matcher.py:17-26 | two loads of the same entries agree on every name, in whatever order they came |
| Catalogue.EditedEntryDisagrees | correlator/src/correlator/main.py:168-180 | a pattern edited after the worker loaded it makes the lists disagree |
| PageWalks.PageIs | api/src/api/services/groups_service.py:63-79 | a page is in alphabetical order, after its cursor, and skips nobody up to its end |
| PageWalks.MembersWalkSound | api/src/api/services/groups_service.py:33-86 | a completed walk, whatever changes between reads: strictly alphabetical, only members seen, everybody with a non-empty name present throughout |
| PageWalks.MembersWalkReturnsAll | api/src/api/services/groups_service.py:33-86 | on a table that does not change, enough requests complete the walk and return exactly its named members |
| PageWalks.LessIff | api/src/api/routers/flows.py:193-197 | the row comparison is lexicographic on time, source, destination and port |
| PageWalks.BelowRow | api/src/api/routers/flows.py:193-197 | the strict comparison resumes after the anchor and after every row that shares its key |
| PageWalks.RawWalkLosesAnchors | api/src/api/routers/flows.py:186-246 | on every fixed table the walk is stretches of `limit` rows, each followed by a lost anchor and all its ties |
| PageWalks.RawWalkPositions | api/src/api/routers/flows.py:186-246 | with distinct keys the rows returned are exactly those at positions i with i mod (limit + 1) different from limit, in order |
| PageWalks.RawWalkCompleteIff | api/src/api/routers/flows.py:232-244 | the walk returns every row if and only if all rows fit on the first page |

## Left out

- RawWalk: the table, and the order the database gives to rows with equal keys, stay fixed during the walk.
- RoundTrip: counted bodies whose length has more than 4300 decimal digits are excluded, since Python refuses to read such a count.
- Insert: a logon whose `user_upn` key holds JSON null is treated like one without the key, which raises; the source would store a binding without a user. The table's column is NOT NULL and the shared event type declares a plain string.
- LookupsSpaced: one worker at a time and one clock shared with Redis, and keys vanish only by expiry.
- RateBound: the bucket of one process; a restarted worker begins with a full one.
- LabelsFollowIff: the time condition is necessary only where two names tell the catalogue's ids apart, as `a` and `b` do.
- Receive (publisher): one atomic step, since nothing shared is read after the awaits inside `_publish`; a failed Redis call is only logged and changes nothing else.
- FlowWindower: the loop of `run` itself is the run of its two operations, `Receive` for an event and `EmitReady` for a tick; fractions of a second and time zones are not modelled.
- GroupAggregator.Aggregate: rows are those the publisher builds, with `groups`, `src_ip` and `flows` always present.
- Resolve: reads of the two Redis keys are given as values; how they follow the worker's writes is LabelsFollowIff. The pipeline takes any label.
- Node lists of a delta, LCD-miss and unknown-ratio metrics, JSON encoding: easy members next to the links.
- UDP datagrams, UTF-8 decoding with replacement: messages are bytes.
- Vendor log parsers, group synchronisation with LDAP and Graph, authentication, cursors' base64, web sockets, the writer's SQL: thin layers over libraries.
- The interval tree's balancing: its set meaning is used (half-open intervals, duplicates merged, empty ones refused).
- Collation of the database: string order by code point stands for it.
