# kube-rbac-proxy: verified model

A Dafny model of the parts of kube-rbac-proxy whose correctness spans several functions, goroutines or whole runs, with proofs over every input, every interleaving and every reachable state. `dafny verify dfyconfig.toml` checks all of it.

| module | what it models |
|---|---|
| SyncOnce, LossWindow, AuditProtocol, AuditGuarantees, AuditLogger | the audit logger: any number of request goroutines, any number of closers, one writer, a bounded channel of any capacity of at least one, a sink that may fail any write, a clock that may return anything |
| ReportLimiter | the lock-free limit on operational log lines |
| Utf8, Json, JsonReader, AuditEvent, RecordText | UTF-8 decoding, encoding, sanitising and truncation; JSON writing and reading; the audit record, its encoding, the bounded record that replaces one above 64 KiB, and what a reader makes of either |
| Splitting, Paths, EndpointMatch, EndpointConfig | strings.Split and Join, path.Clean, the Format2 path patterns, and configuration validation |
| RequestAttributes, AttributeMeaning, AuditResource, RequestGate, RequestServing | the attributes to authorize, the resource an audit record names, and the whole handler chain with and without auditing, as composed functions and as code that updates one response in place |
| UpstreamTimeout, TimeoutBudget | the upstream round trip racing its timer, and the one time budget shared by authentication, authorization and the upstream wait |
| ForwardedFor | validation of X-Forwarded-For over any split into field lines (section 5.3 of RFC 9110) |
| CertReloader | hot reloading of a certificate and key pair |

## How it is put together

The concurrent parts are state machines. An action is one critical section, channel operation, atomic operation or sink write; a run is any finite sequence of enabled actions. The invariants are proved preserved by each action, then lifted to every run and every reachable state. History fields (the loss log, the accepted and handled events, the sink output) exist so that guarantees can be stated about the past.

The classes `Logger`, `Reporter` and `RoundTripCall` hold the fields that the code mutates and carry one ghost field, the protocol state. Every method shows that its assignments are exactly one or more protocol actions, so each guarantee about reachable states is a guarantee about the fields; `AuditLogger.SinkAccountsForDropped` carries one over to the sink, the pending losses and the dropped counter. Methods named `Interference...` stand for any number of steps of other goroutines: their contracts promise only what the `OthersKeep...` lemmas of the same module show that no step of another goroutine changes, and callers use nothing else. A sync.Once is modelled by its flag and mutex (`SyncOnce`), every caller with its own program counter, in the audit logger's Close and in the wrapped response body alike.

Loops over slices are methods with invariants, proved equal to a recursive function; the lemmas are about the function. The main results are stated in terms that the code's own functions do not use: predicates that only specifications mention, literal tables and bytes, and the collaborators' answers. Libraries that are not modelled are function-typed parameters, hence arbitrary.

## Where the code does not do what one would expect

- `matchEndpoint` reads the empty request path as `/`; `extractPathCaptures` does not (pkg/authz/endpoints.go:163 and 192). A matched empty path on a pattern such as `/{t}` indexes out of range. The exported matcher and the handlers behave so; the program puts an http.ServeMux in front of them (cmd/kube-rbac-proxy/app/kube-rbac-proxy.go:360-361), whose treatment of an empty path is not part of this model. `EndpointMatch.ExtractionInRangeIff` and `RequestAttributes.PanicsIff` give the exact condition; `EndpointMatch.EmptyPathPanics` is the concrete input. The doc comment at pkg/authz/endpoints.go:188 takes a confirmed match to be enough.
- `recordLoss` overwrites the end of the loss window instead of taking the maximum (pkg/audit/audit.go:512). The window of an uninterrupted batch is exact if and only if its first timestamp is the least and its last the greatest (`LossWindow.BatchExactIff`), and its duration is negative if and only if the last loss is stamped before the first (`LossWindow.BatchEndsBeforeStartIff`). `AuditGuarantees.WindowsExact` holds whenever timestamps do not decrease in lock order.
- The rate limit treats a last-report stamp of zero as "never" (pkg/audit/audit.go:526). The spacing of reports holds over every run if and only if no clock reads zero (`ReportLimiter.SpacedIffNoZeroClock`); `ReportLimiter.ZeroClockDisablesLimit` is the run that breaks it.
- `WithAuthHeaders` tells the upstream about the user by setting fields of the request header (pkg/filters/auth.go:142-149), and nothing removes such fields from a client's request. On an ignored path, or with identity headers disabled, what the client put there goes through: `RequestGate.IdentityHeaders` and `RequestGate.UpstreamReadsUserIff` say exactly what the upstream reads, and `RequestGate.IgnoredPathForwardsClientIdentity` is a concrete request.
- Two empty files compare equal to the reloader's initial nil bytes (pkg/tls/reloader.go:92): creation succeeds and `GetCertificate`, documented as returning the current valid certificate, returns none. `CertReloader.SkippingIsReparsingIff` and `CreatedWithoutCertificateIff` give the exact conditions.
- The branch that drops a record whose bounded form is still too large (pkg/audit/audit.go:392-395) cannot be reached: `AuditEvent.PayloadAlwaysFits`. It is therefore not an action of the protocol.
- The comment on `gapEvent` (pkg/audit/event.go:83-84) speaks of a full queue only; failed record writes are counted in it as well, and the model counts both.

## Model

| member | source | states |
|---|---|---|
| LossWindow.RecordedCovers | pkg/audit/audit.go:506-513 | recording a loss keeps count, start and end the exact size, minimum and maximum of the losses summarised, when time does not step back |
| LossWindow.RestoredCovers | pkg/audit/audit.go:215-232 | merging an unwritten summary back is exact for the union of both batches, even when their windows overlap |
| LossWindow.RestoredShape | pkg/audit/audit.go:215-232 | whatever the clock did, a merge adds up the counts and reaches from the earlier of the two starts to the later of the two ends |
| LossWindow.BatchExactIff | pkg/audit/audit.go:506-513 | a window is exact if and only if its first timestamp is the least and its last the greatest |
| LossWindow.BatchEndsBeforeStartIff | pkg/audit/audit.go:506-513 | a batch ends before it starts if and only if its last timestamp is less than its first |
| LossWindow.ClockStepBackGivesNegativeDuration | pkg/audit/audit.go:506-513 | the concrete clock step that ends a window before it starts |
| AuditProtocol.KeepsInv | pkg/audit/audit.go:136-252 | every action of every goroutine keeps the lock, loss, counter, order, ledger and shutdown invariants together |
| AuditProtocol.KeepsVerdict | pkg/audit/audit.go:379-408 | a step of an enqueue call moves only that call's event, and each event keeps exactly one verdict |
| AuditGuarantees.RunInv | pkg/audit/audit.go:136-252 | the invariants hold at every position of every run |
| AuditGuarantees.LossesConserved | pkg/audit/audit.go:136-168 | pending, held and written loss counts add up to the queue losses plus failed record writes: none lost or counted twice by failed and retried summaries |
| AuditGuarantees.DroppedCounts | pkg/audit/audit.go:506-521 | the dropped counter is exact up to the additions still due after an unlock |
| AuditGuarantees.NeverPanics | pkg/audit/audit.go:238-252 | no send meets the closed channel and no second close happens, in any interleaving |
| SyncOnce.BodyRunsOnce | pkg/audit/audit.go:238-244 | of any number of callers at most one is ever in the body, it is begun at most once, and whoever gets past finds it finished |
| AuditGuarantees.ChannelClosesOnce | pkg/audit/audit.go:238-244 | once some Close call closed the channel, no Close call can close it in any later state of the run |
| AuditGuarantees.ClosersSeeClosedChannel | pkg/audit/audit.go:238-244 | two Close calls are never in the body together, and every one that gets past the Once finds the channel closed |
| AuditGuarantees.NoQueueLossAfterClose | pkg/audit/audit.go:398-408 | after the close no action records a queue loss or accepts an event |
| AuditGuarantees.StoppedMeansDrained | pkg/audit/audit.go:136-144 | when the writer is done the queue is empty, everything accepted was handled, and losses remain pending if and only if the final summary failed |
| AuditGuarantees.DrainProgresses | pkg/audit/audit.go:136-156 | after the close every writer step shortens the drain and no other goroutine lengthens it |
| AuditGuarantees.WriterNeverStuck | pkg/audit/audit.go:136-156 | after the close the writer always has a step until it is done |
| AuditGuarantees.DrainIsBounded | pkg/audit/audit.go:136-156 | from a closed channel on, any interleaving contains at most DrainMeasure writer steps, and the writer is done when it has taken that many |
| AuditGuarantees.NoDeadlock | pkg/audit/audit.go:238-252 | as long as some enqueue or Close call is on its way, one of them can take a step, whatever the writer does |
| AuditGuarantees.ExactlyOnePlace | pkg/audit/audit.go:379-408 | every event given to enqueue is in exactly one of nine places, any other event in none |
| AuditGuarantees.WrittenInAcceptedOrder | pkg/audit/audit.go:136-156 | the records in the sink are a subsequence of the accepted events, in FIFO order |
| AuditGuarantees.LossesReportedBeforeRecord | pkg/audit/audit.go:144-168 | the losses known at a record's take are all in earlier summary lines if and only if that summary did not fail |
| AuditGuarantees.WindowsExact | pkg/audit/audit.go:158-232 | with a clock monotone in lock order every summary, pending, held or written, spans exactly its own consecutive piece of the loss log |
| AuditGuarantees.WindowsOrdered | pkg/audit/audit.go:176-205 | written summaries have non-negative durations and follow one another in time |
| AuditLogger.OthersKeepWriter | pkg/audit/audit.go:136-168 | no other goroutine moves the writer, writes to the sink or handles an event, and losses others record only add up |
| AuditLogger.OthersKeepCall | pkg/audit/audit.go:398-408 | no other goroutine moves an enqueue call or takes its recorded loss back |
| AuditLogger.Logger.TakePendingLoss | pkg/audit/audit.go:207-213 | returns the pending losses, clears them, and is the take action |
| AuditLogger.Logger.RestorePendingLoss | pkg/audit/audit.go:215-232 | the field-by-field merge is the restore action and adds up the counts |
| AuditLogger.Logger.RecordLoss | pkg/audit/audit.go:506-513 | the locked part is exactly one loss-recording action of its caller |
| AuditLogger.Logger.EmitPendingLoss | pkg/audit/audit.go:158-168 | writes nothing, one summary line, or restores after a failed write, while others run between its regions |
| AuditLogger.Logger.RunOnce | pkg/audit/audit.go:138-155 | one turn writes exactly the losses pending at the take, if any and if the write succeeds, ahead of the oldest event; a decoded event whose write fails is write-lost, recorded with its time and counted, an undecodable one is reported as such and is no loss; or it stops on the closed empty channel |
| AuditLogger.Logger.CountWriteLoss | pkg/audit/audit.go:506-516 | a failed record write is recorded as lost with its time and then counted, and touches neither the sink nor the handled events |
| AuditLogger.Logger.EnqueueLocked | pkg/audit/audit.go:400-407 | a closed logger rejects the event; else it is accepted if the queue has room when the send is tried and counted lost if not, never on a closed channel |
| AuditLogger.Logger.Serialise | pkg/audit/audit.go:379-384 | an event that cannot be serialised is counted as dropped and never queued |
| AuditLogger.Logger.TrySend | pkg/audit/audit.go:403-407 | appends if and only if the queue has room, and the channel is open there |
| AuditLogger.Logger.CloseLocked | pkg/audit/audit.go:240-243 | marks closed and closes the channel once, leaving queue and losses alone |
| AuditLogger.Logger.WriteSummary | pkg/audit/audit.go:160-167 | appends the summary to the sink if and only if there are losses and the write succeeds, else the losses stay held for restoring |
| AuditLogger.Logger.HandleEvent | pkg/audit/audit.go:145-154 | written, undecodable or write-lost: each case gains exactly this event, only the last records and counts a loss, only the first reaches the sink |
| AuditLogger.SinkAccountsForDropped | pkg/audit/audit.go:136-232 | when the writer is done, summaries in the sink plus pending losses plus unserialisable events equal the dropped counter |
| ReportLimiter.ReportsSpaced | pkg/audit/audit.go:523-537 | n reports after another one take at least n seconds under every interleaving with non-zero clock readings, even ones that disagree, step back or are negative |
| ReportLimiter.SpacedIffNoZeroClock | pkg/audit/audit.go:523-531 | for every set of clock readings, all runs are spaced if and only if zero is not in the set |
| ReportLimiter.SwapKeepsInv | pkg/audit/audit.go:529-531 | a swap that wins is at least a second past the newest stamp |
| ReportLimiter.UncontendedReportsIff | pkg/audit/audit.go:523-531 | an uncontended call reports if and only if nothing was reported yet or the last report is a second old |
| ReportLimiter.ZeroClockDisablesLimit | pkg/audit/audit.go:525-531 | two reports at once when the clock reads zero |
| ReportLimiter.Reporter.Report | pkg/audit/audit.go:523-537 | for any clock reading is one run of the three protocol steps around interference, and reports if and only if its swap wins |
| Utf8.ValidIffEncoded | pkg/audit/audit.go:481-499 | the decoder's byte table accepts exactly the encodings of Unicode scalar values (RFC 3629, sections 3 and 4) |
| Utf8.EncodedIsHead | pkg/audit/audit.go:481-499 | decoding an encoded scalar value in any context returns its size and value |
| Utf8.HeadIsEncoded | pkg/audit/audit.go:481-499 | encoding a decoded scalar value returns its bytes |
| Utf8.SanitisedIsValid | pkg/audit/audit.go:482 | sanitising yields valid UTF-8 for every byte string |
| Utf8.SanitisedIffValid | pkg/audit/audit.go:482 | sanitising changes exactly the invalid strings |
| Utf8.ValidPrefixStays | pkg/audit/audit.go:482 | well-formed text is kept as it is and in its place |
| Utf8.RunBecomesReplacement | pkg/audit/audit.go:482 | a maximal run of undecodable bytes becomes one U+FFFD |
| Utf8.FallsApart | pkg/audit/audit.go:482 | every string is such text, then such a run, and so on |
| Utf8.TruncatedSpec | pkg/audit/audit.go:481-499 | the result is valid UTF-8: the sanitised value when it fits, else a whole-rune prefix within the content limit plus the marker |
| Utf8.TruncatedIsShortened | pkg/audit/audit.go:481-499 | an overlong value becomes its longest well-formed prefix within the limit less 11 bytes, and the bytes of "[truncated]" |
| Utf8.ShortenedIsUnique | pkg/audit/audit.go:481-499 | that describes exactly one result |
| Utf8.CutoffIsLongest | pkg/audit/audit.go:490-497 | the scan stops at the longest whole-rune prefix within the limit |
| Utf8.TruncatedFits | pkg/audit/audit.go:481-499 | the result is within the limit whenever the limit holds the marker |
| Utf8.TruncatedIdempotent | pkg/audit/audit.go:481-499 | truncating twice is truncating once |
| Utf8.TruncateUTF8 | pkg/audit/audit.go:481-499 | the rune-by-rune loop computes the specified truncation and ends |
| Json.StringRoundTrip | pkg/audit/audit.go:380 | reading an escaped string back returns it, invalid bytes replaced (RFC 8259, section 7) |
| Json.ReadsBackInPieces | pkg/audit/audit.go:380 | well-formed text reads back as it is, each undecodable byte as U+FFFD |
| Json.EscapedIsClean | pkg/audit/audit.go:380 | no control byte and no unescaped quote occurs inside an encoded string |
| Json.DecimalRoundTrip | pkg/audit/event.go:58-81 | every 64-bit integer reads back from its decimal text |
| Json.DigitsBounded | pkg/audit/event.go:58-81 | an integer below a power of ten has no more digits than its exponent |
| AuditEvent.BoundedFits | pkg/audit/audit.go:410-479 | for every event and original size the bounded record encodes to at most 64 KiB |
| AuditEvent.PayloadAlwaysFits | pkg/audit/audit.go:385-396 | enqueue never gives an event up for its size and never queues more than 64 KiB |
| AuditEvent.PayloadIsTheRecordIfItFits | pkg/audit/audit.go:385-396 | a record within the limit is queued unchanged, any other as its bounded record |
| AuditEvent.BoundedFields | pkg/audit/audit.go:410-479 | for every event and size: every retained string of the bounded record is the sanitised original or its longest well-formed prefix with the marker, numbers are kept, and lists and metadata are cut and set as stated |
| AuditEvent.OversizePayload | pkg/audit/audit.go:385-396 | what is queued for an event above 64 KiB is the encoding of such a record, which gives that event's own encoded size |
| RecordText.RecordReadsBack | pkg/audit/event.go:58-181 | the encoding of any record is JSON text that a reader turns into exactly the record's members, under their names and in order; so does every queued payload, being the encoding of the event or of its bounded record |
| AuditEvent.TruncatedReadsBack | pkg/audit/audit.go:481-499 | every truncated string, from whatever bytes, reads back from its JSON form exactly |
| AuditEvent.BoundedIsProjection | pkg/audit/audit.go:410-479 | when the strings are short, exactly groups, forwarded chain, later resources, foreign profiles and logged time are lost |
| AuditEvent.BoundedIdempotent | pkg/audit/audit.go:410-479 | bounding twice is bounding once |
| AuditEvent.KilobytesRoundsUp | pkg/audit/audit.go:426 | the recorded size is the original rounded up if and only if the addition does not wrap around 64 bits |
| Splitting.SplitOfJoin | pkg/authz/endpoints.go:167 | splitting a join of separator-free parts returns the parts |
| Splitting.JoinOfSplit | pkg/authz/endpoints.go:145 | joining a split returns the string |
| Paths.CleanIdempotent | pkg/authz/endpoints.go:166 | cleaning twice is cleaning once, for rooted and relative paths |
| Paths.CleanSegments | pkg/authz/endpoints.go:149-167 | a cleaned rooted path has no empty, dot or dot-dot segment below the root |
| Paths.CleanFixedPoints | pkg/authz/endpoints.go:166 | a path cleans to itself if and only if it renders a normal element list |
| Paths.CleanRules | pkg/authz/endpoints.go:149-152 | removing a double slash, a dot element, or an ordinary element followed by dot-dot anywhere does not change the cleaned path |
| Paths.RootHasNoParent | pkg/authz/endpoints.go:149-152 | a dot-dot at the root vanishes |
| EndpointMatch.MatchIffInstance | pkg/authz/endpoints.go:158-186 | a validated pattern matches if and only if some slash-free values put into its captures and wildcards give the cleaned path |
| EndpointMatch.MatchSegmentwise | pkg/authz/endpoints.go:158-186 | a validated pattern matches if and only if every segment is a capture, a star, or equal to the cleaned path's |
| EndpointMatch.InstanceUnique | pkg/authz/endpoints.go:158-202 | those values are unique |
| EndpointMatch.ExtractedIsTheAssignment | pkg/authz/endpoints.go:188-202 | on a non-empty path the extractor returns exactly the values of the captures |
| EndpointMatch.CapturesAreTheirSegments | pkg/authz/endpoints.go:188-202 | every capture name maps to the path segment in its place, and nothing else is captured |
| EndpointMatch.ExtractPathCaptures | pkg/authz/endpoints.go:191-202 | the loop returns the capture map, or reports the index panic |
| EndpointMatch.ExtractionInRangeIff | pkg/authz/endpoints.go:163-198 | on a matched path the extractor is in range if and only if the path is non-empty or the last segment is no capture |
| EndpointMatch.EmptyPathPanics | pkg/authz/endpoints.go:191-199 | an accepted pattern that matches the empty path and has no value to extract |
| EndpointMatch.ValidatedPartsAreClean | pkg/authz/endpoints.go:178-180 | after validation the malformed-brace branch is dead |
| EndpointMatch.OnlyCleanedPathMatters | pkg/authz/endpoints.go:158-202 | matching and captures agree on paths that clean alike |
| EndpointMatch.RootedPatternMatchesRootedPath | pkg/authz/endpoints.go:158-186 | a pattern that starts with a slash matches rooted paths only |
| EndpointMatch.CapturedValuesAreSegments | pkg/authz/endpoints.go:188-202 | a captured value has no slash, is not a dot segment, and is empty only for the root |
| EndpointConfig.ValidateSegments | pkg/authz/endpoints.go:244-259 | accepts exactly brace-free literals and distinctly named captures, else names the first fault |
| EndpointConfig.ValidateMapping | pkg/authz/endpoints.go:260-271 | accepts exactly mappings with methods, rules and named rewrite sources, else names a first fault |
| EndpointConfig.ValidateEndpoint | pkg/authz/endpoints.go:238-272 | accepts exactly the valid endpoints, and any fault named is the first in the order of the checks |
| EndpointConfig.ValidateAuthorizationConfig | pkg/authz/endpoints.go:233-275 | accepts exactly the valid configurations, else names a fault of the first invalid endpoint |
| EndpointConfig.AcceptedConfigs | pkg/authz/endpoints.go:204-294 | the accepted configurations spelled out, down to the characters of a capture name |
| RequestAttributes.AttributesFromEndpointResourceRules | pkg/authz/endpoints.go:377-450 | the loop over the rules, with its early exits, yields what the rules together yield |
| AttributeMeaning.RulesAsk | pkg/authz/endpoints.go:377-450 | the rules yield attributes if and only if these are, one by one and in order, what each rule asks for |
| AttributeMeaning.RuleAsks | pkg/authz/endpoints.go:379-447 | a rule asks for an attribute if and only if every field is its template expanded with the request's header, query parameter, method and captures |
| AttributeMeaning.OwnedRequestAsks | pkg/authz/endpoints.go:344-450 | an owned request gets attributes if and only if they are those that the rules of the first mapping listing its method up to case ask for, with the captures of the one assignment that fills the pattern |
| AttributeMeaning.Format1Asks | pkg/proxy/proxy.go:73-155 | a request no endpoint owns is asked about by path, by the fixed attributes, or once per collected value with every field substituted |
| RequestAttributes.CollectRewriteParams | pkg/authz/endpoints.go:461-480 | every value of the query parameter, then every value of the header, in order; none if and only if neither occurs in the request |
| RequestAttributes.GetRequestAttributes | pkg/proxy/proxy.go:49-156 | the imperative choice between Format2 and Format1, one attribute per rewrite value, equals its specification |
| RequestAttributes.PlainEndpointIff | pkg/authz/endpoints.go:358-450 | an owning endpoint without templates authorizes if and only if every source its rules name is in the request, and then exactly for its rules' own fields in order |
| RequestAttributes.LiteralRewritesRepeat | pkg/proxy/proxy.go:117-155 | without templates, Format1 rewrites give one attribute per value, each equal to the one authorized without rewrites |
| RequestAttributes.FormatsAgreeIff | pkg/proxy/proxy.go:56-131 | moving literal attributes from the top level into an endpoint's one rule changes nothing if and only if they name a verb or the method is one Format1 knows |
| RequestAttributes.FirstMatchOwns | pkg/authz/endpoints.go:358-375 | the first matching endpoint alone decides, whatever the other endpoints and the top-level configuration, even when it fails |
| RequestAttributes.UnmatchedEndpointsVanish | pkg/proxy/proxy.go:57-71 | endpoints that do not match have no influence |
| RequestAttributes.AuditFlagAgrees | pkg/audit/audit.go:269-285 | the audit logger's own scan finds a match exactly when attribute construction reports one |
| RequestAttributes.OwnedRequestsYieldAttributes | pkg/authz/endpoints.go:344-450 | with an accepted configuration an owned request fails or yields at least one attribute, one per rule of the first mapping listing its method |
| RequestAttributes.MethodRefusedIff | pkg/authz/endpoints.go:344-369 | the method error arises if and only if no mapping of the owning endpoint lists the method |
| RequestAttributes.PanicsIff | pkg/authz/endpoints.go:358-375 | attribute construction panics exactly for the empty path on an owning endpoint that lists the method and ends in a capture |
| RequestAttributes.Format2DependsOnCleanedPath | pkg/authz/endpoints.go:358-375 | spellings of a path that clean alike get the same Format2 attributes |
| AuditResource.CaptureAuthorizationAttributes | pkg/audit/audit.go:289-300 | the loop notes the first attribute by resource |
| AuditResource.CapturedIsFirst | pkg/audit/audit.go:289-300 | what is noted is the first attribute by resource, or nothing if there is none |
| AuditResource.Precedence | pkg/audit/audit.go:591-605 | name and namespace are each the first non-empty of the configured one, the captured one and, unless owned, the top-level one |
| AuditResource.Format1RecordsFirst | pkg/audit/audit.go:591-617 | beside attributes that Format1 made the literal fallback never shows: the record names exactly the first attribute |
| UpstreamTimeout.DeadlineIffTimerWon | cmd/kube-rbac-proxy/app/transport.go:88-122 | the deadline error is returned if and only if the callback ran before completion and cancelled first; the body that came along was then closed once |
| UpstreamTimeout.TimerNeverCancelsAfterCompletion | cmd/kube-rbac-proxy/app/transport.go:78-96 | after completion the timer changes neither flag nor context |
| UpstreamTimeout.FirstCauseWins | cmd/kube-rbac-proxy/app/transport.go:68-96 | no action replaces the cause of a cancelled context |
| UpstreamTimeout.ParentNeverRelabelled | cmd/kube-rbac-proxy/app/transport.go:95-108 | a parent cancellation keeps its cause and is never reported as a timeout |
| UpstreamTimeout.ContextNeverLeaks | cmd/kube-rbac-proxy/app/transport.go:98-148 | on return the context is cancelled or owned by one wrapper; of any number of concurrent closes one cancels, each that gets past the Once finds the context cancelled, and each closes the inner body once |
| UpstreamTimeout.OthersKeepCloser | cmd/kube-rbac-proxy/app/transport.go:130-148 | no other goroutine, another close included, moves a close, replaces the cause, or changes what the close saw under the Once |
| UpstreamTimeout.WaitIsBounded | cmd/kube-rbac-proxy/app/transport.go:78-96 | with timers on time, past the deadline the headers are there or the inner call is cancelled |
| UpstreamTimeout.TimerCanWin | cmd/kube-rbac-proxy/app/transport.go:78-103 | for every timeout and reply there is a run in which the timer fires when due and the deadline error is returned |
| UpstreamTimeout.ParentCanWin | cmd/kube-rbac-proxy/app/transport.go:95-108 | and one in which a parent cancellation passes through |
| UpstreamTimeout.RoundTripCall.TimerCallback | cmd/kube-rbac-proxy/app/transport.go:78-87 | before completion it flags and cancels, after it does nothing |
| UpstreamTimeout.RoundTripCall.Settle | cmd/kube-rbac-proxy/app/transport.go:90-121 | the code from the inner reply on returns exactly the protocol's outcome, and closes the inner body if and only if the timeout won over a response that came along |
| UpstreamTimeout.RoundTripCall.Close | cmd/kube-rbac-proxy/app/transport.go:130-148 | with other closes running in between, cancels only if none did before, leaves an earlier cause alone, and closes the inner body once |
| TimeoutBudget.NewRequestTimeoutBudget | cmd/kube-rbac-proxy/app/auth_timeout.go:34-46 | the stepwise computation yields for upstream its own deadline and for auth the least enabled one |
| TimeoutBudget.AuthDeadlineIsMinimum | cmd/kube-rbac-proxy/app/auth_timeout.go:34-46 | being the least enabled limit determines the auth deadline, and it is never after the upstream deadline |
| TimeoutBudget.OutermostBudgetWins | cmd/kube-rbac-proxy/app/auth_timeout.go:48-66 | of any number of nested wrappers the outermost one with a limit fixes the budget |
| TimeoutBudget.NoLimitNoBudget | cmd/kube-rbac-proxy/app/auth_timeout.go:48-51 | wrappers without limits set no budget |
| TimeoutBudget.CauseIsFirst | cmd/kube-rbac-proxy/app/auth_timeout.go:87-92 | an ended context keeps its cause, deadline or cancellation, whichever came first |
| TimeoutBudget.SharedDeadline | cmd/kube-rbac-proxy/app/auth_timeout.go:68-112 | all calls of one request get the same deadline however late they begin: the earlier of the shared auth deadline and the context's own |
| TimeoutBudget.AuthPhasePassesIff | cmd/kube-rbac-proxy/app/auth_timeout.go:80-112 | authentication and any number of authorizations pass if and only if each is granted before its context expires |
| TimeoutBudget.LateSuccessCause | cmd/kube-rbac-proxy/app/auth_timeout.go:68-112 | a success turns into an error if and only if its context has ended, and the error is the earlier of deadline and cancellation |
| TimeoutBudget.AuthPhaseMeetsDeadline | cmd/kube-rbac-proxy/app/auth_timeout.go:80-112 | a request that passes authentication and any number of authorizations does so before the shared deadline |
| TimeoutBudget.AdmittedIffBudgetLeft | cmd/kube-rbac-proxy/app/transport.go:57-66 | whenever the transport is reached, with or without authorizations before it, the upstream is tried if and only if budget is left, and with exactly what is left |
| TimeoutBudget.AdmissionMeaning | cmd/kube-rbac-proxy/app/transport.go:41-66 | for all contexts, times and limits: untimed if and only if the limit is disabled, refused if and only if it is enabled and no time is left, else timed with exactly what is left |
| TimeoutBudget.PassingRequestIsAdmitted | cmd/kube-rbac-proxy/app/transport.go:57-66 | a request that passes its auth phase has budget left, and is tried after a gap if and only if the gap is shorter than that |
| TimeoutBudget.TotalWaitIsBounded | cmd/kube-rbac-proxy/app/transport.go:57-96 | whenever a request reaches the upstream, nobody waits for its response headers beyond entry plus the upstream timeout when timers are on time |
| RequestGate.ScanPatterns | cmd/kube-rbac-proxy/app/kube-rbac-proxy.go:590-601 | the pattern loop finds the first match or malformed pattern |
| RequestGate.ScanDecides | pkg/filters/path.go:28-47 | the scan finds a match or nothing exactly as the quantified statement says |
| RequestGate.AuthorizeAll | pkg/filters/auth.go:115-129 | the authorization loop returns the status of the first refusal |
| RequestGate.RefusalMeansNotAllowed | pkg/filters/auth.go:115-129 | there is none if and only if every attribute is allowed without error, and its status is that of the first one not allowed |
| RequestGate.HandlerReplies | cmd/kube-rbac-proxy/app/kube-rbac-proxy.go:557-612 | the composed handler, audited or not, equals a flat case distinction |
| RequestGate.UpstreamIffAdmitted | cmd/kube-rbac-proxy/app/kube-rbac-proxy.go:557-612 | the upstream is called at most once, and exactly for an allowed path that is ignored, or is guarded with an authenticated user and at least one attribute, all allowed |
| RequestGate.IdentityHeaders | pkg/filters/auth.go:137-153 | on guarded requests with identity headers enabled exactly the fields under the canonical configured names are overwritten, with the user's name and the groups joined by the separator; in every other case the upstream gets the arriving header, the client's own fields included |
| RequestGate.GroupsReadBack | pkg/filters/auth.go:148 | splitting the groups field at a separator that no group contains returns exactly the user's groups |
| RequestGate.UpstreamReadsUserIff | pkg/filters/auth.go:137-153 | the exact condition under which the upstream reads the authenticated user's name |
| RequestGate.IgnoredPathForwardsClientIdentity | cmd/kube-rbac-proxy/app/kube-rbac-proxy.go:588-609 | a request on an ignored path whose client-sent user name reaches the upstream unauthenticated |
| RequestGate.StatusOfFirstFailure | pkg/filters/auth.go:42-132 | the first failing stage alone fixes the status |
| RequestGate.AuditIsTransparent | cmd/kube-rbac-proxy/app/kube-rbac-proxy.go:569-585 | auditing changes neither the response nor the upstream call |
| RequestGate.OneFaithfulRecord | pkg/audit/audit.go:254-377 | exactly one record per guarded request, with its response, user, ownership flag and first authorized resource; none for other requests |
| RequestGate.RecordNames | pkg/audit/audit.go:591-617 | whatever is configured, the record's name and namespace are each the first non-empty of configured, first authorized and, unless owned, literal top-level, and it carries the ownership flag |
| RequestGate.NoEmptyAttributesFromFormat2 | pkg/filters/auth.go:106-110 | the no-attributes rejection cannot come from an accepted endpoint |
| RequestGate.OwnedRequestsIgnoreTopLevel | pkg/proxy/proxy.go:57-71 | response, upstream call and audit record of an owned request are independent of top-level rewrites and resource attributes |
| RequestGate.RecordNamesFirstAttribute | pkg/audit/audit.go:591-617 | with nothing configured every record of a request whose attributes could be built names exactly the first attribute put to the authorizer, owned or not, granted or not |
| RequestGate.RecordWithoutAttributes | pkg/audit/audit.go:598-617 | without attributes the record of an owned request names nothing, any other the literal top-level resource |
| RequestServing.Conversation.Serve | cmd/kube-rbac-proxy/app/kube-rbac-proxy.go:588-612 | the handlers, updating response, headers and audit data in place, do exactly what the composed handler says |
| RequestServing.Conversation.ServeAuthorized | pkg/filters/auth.go:87-132 | attribute errors, observer, authorization loop and upstream call in place give the flat response, call and noted target |
| RequestServing.Conversation.Observe | pkg/audit/audit.go:289-300 | the loop with early return overwrites the noted target only if some attribute is by resource |
| RequestServing.Conversation.CaptureMatch | pkg/audit/audit.go:274-282 | the scan with break sets the flag exactly when some endpoint matches |
| RequestServing.Conversation.ServeProtected | pkg/audit/audit.go:316-377 | appends one record of the final response and notes if and only if audited |
| ForwardedFor.ValidatedForwardedFor | pkg/audit/address.go:44-56 | the nested loops return the accepted addresses of all lines in order |
| ForwardedFor.SplitLinesDoNotMatter | pkg/audit/address.go:44-56 | validating several field lines equals validating the one combined line |
| ForwardedFor.SourceIndependentOfLines | pkg/audit/address.go:28-42 | chain and chosen source depend only on the combined field value |
| ForwardedFor.LastHopIsSource | pkg/audit/address.go:30-33 | an address in last place is the source, whatever precedes it |
| ForwardedFor.ChainLaws | pkg/audit/address.go:44-56 | lines and members count one after another, each for its own parsed address; this determines the chain |
| ForwardedFor.ValidatedParsed | pkg/audit/address.go:44-56 | every recorded address is the parse of some member of some line |
| ForwardedFor.SourceIsParsedOrPeer | pkg/audit/address.go:28-42 | the source is a parsed member if any member parses, and the peer exactly if none does |
| CertReloader.ServedMatchesStored | pkg/tls/reloader.go:80-123 | over any reads, torn or failing, a served certificate is the parse of the stored pair |
| CertReloader.FailureChangesNothing | pkg/tls/reloader.go:80-113 | a failed reload changes nothing and a certificate is never withdrawn |
| CertReloader.LastLoadedIsKept | pkg/tls/reloader.go:80-123 | over any reads the certificate is that of the last reads that could be loaded, or none if there were none |
| CertReloader.SkippingIsReparsingIff | pkg/tls/reloader.go:91-104 | skipping on equal bytes equals always parsing unless nothing is loaded and both files are empty |
| CertReloader.HistoriesAgree | pkg/tls/reloader.go:80-113 | over any history without two empty files both strategies hold the same state |
| CertReloader.CreatedWithoutCertificateIff | pkg/tls/reloader.go:48-60 | creation succeeds with nothing to serve if and only if both files are empty |
| CertReloader.Reloader.Reload | pkg/tls/reloader.go:80-113 | the imperative reload equals its specification and keeps the fields in step with the history of reads |
| CertReloader.Reloader.GetCertificate | pkg/tls/reloader.go:118-123 | serves the certificate of the last reads that could be loaded, and it is the parse of the stored pair |

## Left out

- Decoding in the writer goroutine: every queued payload is shown to read back as its record, but json.Unmarshal into Go values (pkg/audit/audit.go:146) is an outcome that may or may not happen; so is the second encoding, with the logged time filled in, that goes to the sink, and summary lines are values, not bytes.
- Widths of loss counts and timestamps: int64 overflow of the loss count, the dropped counter and the time arithmetic is not modelled; the 64-bit wrap-around of the recorded size is (`AuditEvent.KilobytesRoundsUp`).
- Log lines of the audit logger: calls to report inside the writer and enqueue are no protocol actions, since they touch only the limiter, which is modelled by itself.
- Lock scheduling: writer preference of the RWMutex and fairness are not modelled, and the context that bounds the wait in Close only ends that wait.
- An unbuffered events channel: capacities are at least one, as the only constructor call has it.
- AuditLogger.Logger.EnqueueLocked: starts with the read lock held, because blocking acquisition has no sequential counterpart; acquiring and releasing are protocol actions.
- AuditLogger.Logger.RunOnce: starts at a ready receive, for the same reason.
- UpstreamTimeout.RoundTripCall.Settle: starts with the mutex free and the inner round trip returned, for the same reason.
- UpstreamTimeout.RoundTripCall.Close: starts holding the mutex of the Once; the lock-free look at its flag and the wait for the mutex are protocol actions.
- Paths.Clean: stated on slash-separated elements, not as the byte-by-byte scan of the standard library.
- A nil configuration, and endpoints whose PathParts were never prepared: parts are always the split of the endpoint path.
- A nil Profiles slice, which encodes as null and not as an empty array.
- Template expansion, lower-casing, trimming, header-name canonicalisation, path.Match globbing, address parsing, X.509 parsing, authenticators and authorizers: arbitrary functions. Authentication and authorization timeouts are proved in TimeoutBudget and are part of those functions in RequestGate.
- Response metrics: upstream status capture, the code recorded for an upgraded or partly written response, body length, latency, and the user and endpoint fields of a record (pkg/audit/audit.go:302-312, 323-376, 539-590, 622-646).
- Unwinding of a panic: it ends the request with its own response, and the HTTP server's recovery is not modelled.
- Audience lists passed to the authenticator.
- What httputil.ReverseProxy does to the header it is handed, such as dropping hop-by-hop fields and appending to X-Forwarded-For: the model ends at the header handed over.
- The http.ServeMux in front of the handlers, which may redirect a request whose path is empty or not clean.
- Transport and TLS set-up, listeners, flags, YAML loading, signal handling, Kubernetes clients, OIDC and token review, the hard-coded and static authorizers, token masking: single-branch logic or input and output.
