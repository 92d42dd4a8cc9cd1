# sing-box state machines in Dafny

This project models the parts of sing-box that keep state and carry guarantees
across calls, and proves those guarantees for all inputs and all interleavings.

- **Service life cycle** (`ServiceStatus`). Any number of threads reload, close and
  fail the daemon's service around one mutex, which is dropped while an instance is
  closed or started. The class is the object, one method per stretch of code under
  the lock; the state machine interleaves those stretches.
- **Connection event stream** (`ConnectionStream`, `ConnectionReplay`). The class
  keeps the snapshots of one subscription and emits NEW, UPDATE and CLOSED events;
  the second module replays them into the client's table over whole runs.
- **DNS transports** (`TransportGraph`, `TransportManager`). The list and the index
  of transports, the start-up scheduler over the dependency graph, and its diagnosis.
- **DNS rules** (`DnsRules`, `RuleSetUpdates`, `RuleExchange`, `LegacyExchange`). The
  static analysis that picks one of two interpreters, the validator, updates of
  rule-sets under a fixed mode, and both interpreters against reference semantics.
- **DNS cache** (`DnsMessage`, `ResponseCache`, `CacheRuns`, `SingleFlight`). TTL
  arithmetic on records updated in place, the expiring cache with its stale window,
  and the per-key lock made of a concurrent map of channels.
- **USB/IP** (`UsbMailbox`, `UsbSubmit`). The latest-wins mailbox up to the message
  the client sees, and the matching of responses to requests.
- **Relaying** (`ConnectionCopy`). The two copies of a connection, the shared flag
  and the close handler.

Concurrent code is cut at its atomic operations: lock sections, operations of
concurrent maps and atomics, and single channel operations. A run is any sequence of
enabled steps of any number of threads. What the environment answers (the clock, the
network, starts that fail, rule matching) is a parameter or part of an event.

Six claims are not true of the code without a condition. Each has a concrete input
or run that breaks it, and the exact condition under which it holds:

- no instance is leaked: `ServiceStatus.SetErrorSafeIff` and
  `ServiceStatus.LeakIsReachable`;
- a client starts with the live set of its subscription:
  `ConnectionReplay.InitialLiveIff` and `ConnectionReplay.InitialListsMayOverlap`;
- a new-style router survives two rule-set updates that overlap:
  `RuleSetUpdates.NewModeOverlapIff`, `RuleSetUpdates.NewModeOverlapByUpdate` and
  `RuleSetUpdates.NewModeBreaksUnderOverlap`;
- an update accepted while the router starts fits the mode it starts in:
  `RuleSetUpdates.StartRaceIff` and `RuleSetUpdates.StartRaceBreaks`;
- the TTL a cached answer is served with never grows:
  `CacheRuns.RecordTTLShrinksIff` and `CacheRuns.RecordTTLMayGrow`;
- removing a transport keeps the reverse dependency index exact:
  `TransportManager.RemoveKeepsExactIff` and `TransportManager.RemoveForgetsDependent`.

Code and text disagree in two places, and the model follows the code: `Remove`
reports that other transports depend on the removed one only after it has been
removed (dns/transport_manager.go:197-243), and its FakeIP test is the reverse of the
error message beside it (dns/transport_manager.go:216).

## Model

| member | source | states |
|---|---|---|
| ServiceStatus.StartedService.constructor | daemon/started_service.go:85-111 | a fresh service is idle, without instance, with a free mutex |
| ServiceStatus.StartedService.Attached | daemon/attached_service.go:13-28 | an attached service starts out STARTED with the running instance |
| ServiceStatus.StartedService.UpdateStatusError | daemon/started_service.go:133-139 | sets FATAL and releases the lock its caller took, leaving the instance alone |
| ServiceStatus.StartedService.CheckReload | daemon/started_service.go:183-192 | refused exactly while STOPPING; hands out the old instance to close and keeps the lock only when there is none |
| ServiceStatus.StartedService.Install | daemon/started_service.go:199-208 | installs the new instance, or fails the service; the lock is released on both paths |
| ServiceStatus.StartedService.FinishReload | daemon/started_service.go:211-222 | becomes STARTED only from STARTING and after a successful start; the lock is released on all three paths |
| ServiceStatus.StartedService.CheckClose | daemon/started_service.go:234-242 | refused exactly when not STARTING or STARTED; otherwise takes the instance out under STOPPING and keeps the lock |
| ServiceStatus.StartedService.FinishClose | daemon/started_service.go:243-253 | IDLE without a starting time if Close succeeded, FATAL with the starting time kept if not; the lock is released |
| ServiceStatus.DisciplineStretch | daemon/started_service.go:181-260 | every stretch of every call keeps the lock discipline: the holder is the only call inside a section and no call unlocks what it does not hold |
| ServiceStatus.SafeStep | daemon/started_service.go:127-260 | every step of every call keeps the safety invariant |
| ServiceStatus.SafeRun | daemon/started_service.go:127-260 | so does every run, of any number of threads |
| ServiceStatus.HandlersMayDereference | daemon/started_service.go:357-368 | in every interleaving, a free mutex and a status of STARTING or STARTED imply an instance; no unlock hits a free mutex; a returned call has unlocked as often as it locked |
| ServiceStatus.LiveIsOpenStep | daemon/started_service.go:181-260 | every step keeps the instance of a live service open, except while a reload replaces it |
| ServiceStatus.HandlersUseOpenInstance | daemon/started_service.go:357-368 | in every interleaving, any SetErrors included, a free mutex and a live status mean that the instance has not been closed and that no call is about to close it |
| ServiceStatus.StepsAdvance | daemon/started_service.go:181-260 | every step brings its call nearer to its return, within nine steps, and moves no other call |
| ServiceStatus.NeverStuck | daemon/started_service.go:181-260 | in every reachable state with an unreturned call some call can take its next step, that very call if the mutex is free |
| ServiceStatus.WindowExcludes | daemon/started_service.go:189-196 | while one reload is between its two lock sections no other call changes the guarded fields or enters that window |
| ServiceStatus.TidyStep | daemon/started_service.go:181-254 | every calm step keeps the accounting of instances, the owner of STOPPING and the uniqueness of the closing window |
| ServiceStatus.NoInstanceLeaked | daemon/started_service.go:181-254 | in every calm interleaving, whenever the mutex is free every installed instance is current or has had Close called, and at most one is unclosed |
| ServiceStatus.SetErrorEffect | daemon/started_service.go:256-260 | the whole effect of a SetError call; it is calm exactly when the status is not STOPPING |
| ServiceStatus.DisturbedReloadLeaks | daemon/started_service.go:181-254 | from any reload whose STOPPING was overwritten with FATAL there is a run that leaks an instance |
| ServiceStatus.SetErrorSafeIff | daemon/started_service.go:181-260 | after any calm run, a SetError can lead to a leaked instance if and only if it strikes while STOPPING |
| ServiceStatus.CloseEffect | daemon/started_service.go:232-254 | a whole CloseService of a live service closes its instance and returns with a free mutex: IDLE and never started if Close succeeded, FATAL with the starting time kept if not |
| ServiceStatus.CloseRefused | daemon/started_service.go:234-239 | on any other service it changes nothing |
| ServiceStatus.ReloadRefused | daemon/started_service.go:183-188 | a reload while STOPPING changes nothing |
| ServiceStatus.BuildEffect | daemon/started_service.go:197-208 | a failed build leaves the service FATAL with the instance and starting time it had; a successful one STARTING with the new instance |
| ServiceStatus.StartEffect | daemon/started_service.go:209-222 | a start ends STARTED at its time, or FATAL with the new instance; one that was overtaken changes nothing |
| ServiceStatus.ReloadEffect | daemon/started_service.go:181-223 | a whole uninterrupted StartOrReloadService, for every outcome of build and start: what is closed, installed, current and recorded at the end |
| ServiceStatus.LeakIsReachable | daemon/started_service.go:181-260 | a run from a fresh service that ends with a leaked instance: start, reload, and a SetError while the old instance is being closed |
| ConnectionStream.Touch | daemon/started_service.go:834-893 | the snapshot of an active connection ends at its current counters, and a tick says at most one thing about it, never that it closed; what it says is TickSays |
| ConnectionStream.Subscription.BuildInitialConnectionState | daemon/started_service.go:761-787 | snapshots are exactly the active connections at their counters; the events announce active then closed connections in order |
| ConnectionStream.Subscription.ApplyConnectionEvent | daemon/started_service.go:789-827 | the new snapshots and the event are the specified functions of the old snapshots, including the choice of the closing time |
| ConnectionStream.Subscription.UpdateOne | daemon/started_service.go:834-893 | one round of the loop is `Touch` of the old snapshot, whose event TickSays gives from what was said before |
| ConnectionStream.Subscription.UpdateActive | daemon/started_service.go:829-893 | the first loop is the fold of `Touch` over the active list |
| ConnectionStream.Subscription.CloseInactive | daemon/started_service.go:895-922 | keeps exactly the active snapshots, unchanged, and emits for each stale one the CLOSED event its closed entry or the clock dictates |
| ConnectionStream.CloseStale | daemon/started_service.go:900-914 | the indexed search refines the specification: final counters of the closed list's latest entry, and its closing time or else the clock's |
| ConnectionStream.Subscription.BuildTrafficUpdates | daemon/started_service.go:829-925 | a tick leaves exactly the active ids at their current counters and emits exactly the specified events, closing times included |
| ConnectionStream.AfterActiveAt | daemon/started_service.go:834-893 | the loop touches each connection once, from the snapshot before the tick |
| ConnectionStream.LatestIs | daemon/started_service.go:900-905 | the index of closed connections leads to the last entry of an id, if there is one |
| ConnectionReplay.ReplayIsLocal | experimental/libbox/command_types.go:129-184 | the client's entry for a connection is determined by the events about that connection alone |
| ConnectionReplay.TickOfActive | daemon/started_service.go:834-893 | in a whole tick, the events about an active connection are exactly the event of its touch |
| ConnectionReplay.TickOfInactive | daemon/started_service.go:895-922 | a tick closes each stale connection exactly once, with the specified event, and is silent about unknown ones |
| ConnectionReplay.RowStep | daemon/started_service.go:761-925 | every turn, seen from one connection, is one of six causes with at most one event |
| ConnectionReplay.InitialLiveIff | daemon/started_service.go:761-787 | the client starts with the snapshots' live set if and only if the active and closed lists are disjoint |
| ConnectionReplay.InitialListsMayOverlap | daemon/started_service.go:764-784 | a connection on both lists, for which the live sets differ |
| ConnectionReplay.LiveStep | daemon/started_service.go:789-925 | every turn keeps client and snapshots agreeing on what is live |
| ConnectionReplay.ClientLiveSet | daemon/started_service.go:761-925 | if the initial lists are disjoint, at every point of every run the live set replayed by the client equals the snapshot keys |
| ConnectionReplay.TickResyncIff | daemon/started_service.go:829-925 | exactly which disagreements a tick repairs |
| ConnectionReplay.ClientAfterTick | daemon/started_service.go:829-925 | if the initial lists are disjoint, after every tick of every run the client's live set is exactly the active ids, whose snapshots hold the current counters |
| ConnectionReplay.DeltasAddUp | daemon/started_service.go:829-893 | while a connection stays known and its counters do not go back, the deltas sent for it sum to the change of its snapshot |
| ConnectionReplay.DeltasNonNegative | daemon/started_service.go:853-884 | no delta in any run is negative, whatever the counters do |
| ConnectionReplay.SilenceFollowsTraffic | daemon/started_service.go:853-893 | among the events about a connection a zero UPDATE directly follows an UPDATE with traffic, so two zero ones always have a positive one between them |
| ConnectionReplay.TickSays | daemon/started_service.go:829-893 | in every run a tick announces an unknown active connection, reports the growth of a known one, sends a zero UPDATE exactly if there was no growth and the last event about it was traffic, and is silent otherwise |
| ConnectionReplay.ClosedByEvent | daemon/started_service.go:804-823 | what the client shows of a connection after its closing event, with the choice of the closing time |
| ConnectionReplay.ClosedByTick | daemon/started_service.go:895-922 | what it shows of a connection a tick no longer finds |
| ConnectionReplay.InitialClosed | daemon/started_service.go:776-784 | what it shows at the start of a connection of the closed list |
| ConnectionReplay.TickKeepsTotalsIff | experimental/libbox/command_types.go:145-151 | a tick keeps the offset between client totals and snapshot if and only if no counter went back |
| ConnectionReplay.AnnouncedMirrorsIff | daemon/started_service.go:794-804 | a connection is announced with the totals of its snapshot if and only if the two reads of its counters agree |
| ConnectionReplay.ClientTotals | experimental/libbox/command_types.go:129-184 | if counters never go back and are stable while announced, the client's totals equal the snapshots at every point of every run |
| TransportGraph.OrderedIsSound | dns/transport_manager.go:90-123 | a start order of all transports exists only for complete, acyclic graphs |
| TransportGraph.RepeatIsCycle | dns/transport_manager.go:132-134 | the reported repeated tag closes a cycle |
| TransportManager.FindUnstarted | dns/transport_manager.go:129-131 | finds an unstarted dependency if there is one and falls through to the empty tag only otherwise |
| TransportManager.Lint | dns/transport_manager.go:127-143 | terminates, never reaches the empty tag, and reports a path of distinct unstarted tags from where it started that runs into itself, or an unstarted dependency that does not exist |
| TransportManager.StartRound | dns/transport_manager.go:94-117 | starts only transports whose dependencies are started; no progress means that nothing can be started |
| TransportManager.StartTransports | dns/transport_manager.go:90-146 | for any list and index of its tags, returns without error if and only if no tag repeats, all starts succeed, all dependencies exist and the graph is acyclic; then each transport is started once, after its dependencies; it crashes only when a tag repeats |
| TransportManager.RefuteGraph | dns/transport_manager.go:127-143 | any reported problem refutes completeness or acyclicity |
| TransportManager.FindNotStarted | dns/transport_manager.go:124-126 | finds an unstarted transport unless something is started for every tag |
| TransportManager.AllStarted | dns/transport_manager.go:118-126 | the search comes back empty only when a tag repeats |
| TransportManager.CutIsWithout | dns/transport_manager.go:204-211 | cutting out the found index removes exactly the transport with the tag |
| TransportManager.Manager.constructor | dns/transport_manager.go:37-46 | an empty manager is consistent |
| TransportManager.Manager.Create | dns/transport_manager.go:245-300 | keeps list and index in step on every path, and says exactly which error or none is returned, what is registered, and which transport is the default and the FakeIP one afterwards |
| TransportManager.Manager.RemoveListed | dns/transport_manager.go:263-277 | the replaced transport leaves list and index together; the search for it cannot fail |
| TransportManager.Manager.Insert | dns/transport_manager.go:278-283 | the new transport enters list, index and reverse index |
| TransportManager.Manager.Remove | dns/transport_manager.go:197-243 | keeps list and index in step; says exactly which error or none is returned and which transport is the default afterwards; the transport is gone on every path but the unknown tag |
| TransportManager.Manager.ChooseDefault | dns/transport_manager.go:59-73 | list and index stay in step if and only if the fallback's tag was free |
| TransportManager.Manager.Start | dns/transport_manager.go:52-76 | for any fallback: succeeds if and only if a default exists or a fallback with a free tag does, and the scheduler does; list and index stay in step unless the fallback's tag was taken, which is never so after successful Creates |
| TransportManager.Manager.Close | dns/transport_manager.go:148-158 | empties the list but not the index, which ends their agreement exactly when something was registered |
| TransportManager.ListDependencies | dns/transport_manager.go:280-283 | the loop appends the tag under every dependency |
| TransportManager.DropDependencies | dns/transport_manager.go:229-238 | the loop unlists the tag under every dependency |
| TransportManager.CreateKeepsExact | dns/transport_manager.go:280-283 | registering a new tag keeps the reverse index exact |
| TransportManager.UndependAt | dns/transport_manager.go:229-238 | what a removal leaves under each dependency, including the case that drops a live dependent |
| TransportManager.RemoveKeepsExactIff | dns/transport_manager.go:229-238 | removal keeps the reverse index exact if and only if no dependency is declared twice while exactly one entry of another transport is listed for it |
| TransportManager.RemoveForgetsDependent | dns/transport_manager.go:229-238 | three transports for which a removal forgets a live dependent |
| DnsRules.RuleSetFlagsExact | dns/router.go:978-1002 | the flags of the rule-set loop are disjunctions over the referenced sets; it fails exactly on a missing one |
| DnsRules.FlagsExact | dns/router.go:941-976 | over arbitrary rule trees each flag holds if and only if some node has the corresponding property |
| DnsRules.RuleFlagsExact | dns/router.go:953-1002 | the same for one tree |
| DnsRules.ResolveExact | dns/router.go:927-939 | the error, the disabled flag and the chosen mode in terms of what occurs anywhere in the trees |
| DnsRules.NewModeHasNoStrategy | dns/router.go:892-1002 | when the new mode is chosen, no node of any rule tree has a strategy |
| DnsRules.LegacyModeUsesNothingNew | dns/router.go:892-1002 | when the legacy mode is chosen, no node uses evaluate, respond, response matching, query_type, ip_version or disable_optimistic_cache |
| DnsRules.TreeNeedsResponse | dns/router.go:1082-1124 | the validator's flag for a tree is whether any node needs a response |
| DnsRules.ValidatedHasEvaluate | dns/router.go:1044-1124 | in a validated list every rule that needs a response, anywhere in its tree, comes after a top-level evaluate |
| DnsRules.TreeValidIff | dns/router.go:1082-1124 | a tree is accepted if and only if no node matches on addresses or responses without match_response, refers then to a missing or address-only rule-set, or accepts empty address lists |
| DnsRules.ValidateIff | dns/router.go:1044-1124 | the validator accepts a list if and only if no node is unfit in that sense and every rule that needs a response comes after a top-level evaluate |
| RuleSetUpdates.OverrideIsInstall | dns/router.go:1004-1015 | judging an override equals judging the installed metadata |
| RuleSetUpdates.BuildIff | dns/router.go:175-217 | a router starts, and in which mode, if and only if its rules resolve and validate where they have to |
| RuleSetUpdates.AcceptsIff | dns/router.go:225-272 | exactly which updates are accepted before the start, in legacy mode and in the new mode |
| RuleSetUpdates.ModeStep | dns/router.go:225-272 | every update, start or close keeps the mode right for the current rule-sets |
| RuleSetUpdates.ModeRun | dns/router.go:225-272 | so does every sequence of them |
| RuleSetUpdates.ModeStaysValid | dns/router.go:225-272 | over every such sequence a legacy router never meets a new feature, and a new-style router never meets a strategy and keeps an evaluate before every use of a response |
| RuleSetUpdates.BlendIsClean | dns/router.go:225-272 | metadata blended from two tables brings in no feature that neither brings in |
| RuleSetUpdates.BlendValidates | dns/router.go:1044-1124 | if both tables validate, so does a blend |
| RuleSetUpdates.LegacySurvivesOverlap | route/rule/rule_set_remote.go:184-198 | two updates validated before either is installed cannot break a legacy router |
| RuleSetUpdates.NewModeOverlapIff | route/rule/rule_set_local.go:131-154 | a new-style router survives them if and only if, with both in place, some rule uses a new feature or none needs the legacy mode |
| RuleSetUpdates.NewModeOverlapByUpdate | route/rule/rule_set_local.go:131-154 | the same in terms of each update alone: it breaks if and only if one update keeps the new mode only through the rule-set the other replaces and the other leaves no new feature |
| RuleSetUpdates.NewModeBreaksUnderOverlap | route/rule/rule_set_local.go:131-154 | a concrete pair of accepted updates that breaks it |
| RuleSetUpdates.StartRaceIff | dns/router.go:136-149 | an update judged before the mode is fixed and installed after leaves the mode right if and only if a legacy start meets no new feature and a new-style start no unmet need |
| RuleSetUpdates.StartRaceBreaks | dns/router.go:136-149 | a concrete update accepted before the start that leaves a legacy router with a new feature |
| RuleExchange.ExchangeWithRules | dns/router.go:403-512 | the loop refines the recursive walk, whose outcome OutcomeByRule gives; the evaluated response and its transport are set or unset together |
| RuleExchange.WalkIgnoresNothing | dns/router.go:344-360 | without strategies in the actions, the walk equals the reference that honours them |
| RuleExchange.SkippingStrategyIsSound | dns/router.go:344-360 | for every rule list resolved to the new mode, skipping strategies changes no outcome for any query and environment |
| RuleExchange.EvaluatedIsLast | dns/router.go:403-512 | at every rule the response at hand is that of the last matched evaluate, and none if none matched |
| RuleExchange.WalkEnds | dns/router.go:403-512 | the outcome is that of the first reached, matching, final rule, or the default server's |
| RuleExchange.OutcomeByRule | dns/router.go:403-512 | by the rule the walk ends at: a route asks its own known and wanted server, the default server is asked only when no rule is left, with every field of the query options; reject, predefined and respond return what they say; nothing else ends the walk |
| RuleExchange.EvaluateAsksServer | dns/router.go:420-444 | an evaluate asks its own server with these options, and has an answer if and only if the server is known and answers |
| RuleExchange.ReachedIff | dns/router.go:403-512 | a rule is reached if and only if every earlier one does not match, only prepares, or routes to an unknown or unwanted server |
| RuleExchange.SwitchesReached | dns/router.go:344-360 | the cache switches in force at a rule are the caller's or turned on by a matched route-options rule before it; the strategy is the caller's |
| RuleExchange.TTLReached | dns/router.go:344-360 | the TTL in force is that of the last matched route-options rule that has one |
| RuleExchange.SubnetReached | dns/router.go:344-360 | likewise the client subnet |
| RuleExchange.RespondIsLastEvaluate | dns/router.go:445-454 | respond returns exactly the answer of the last matched evaluate |
| RuleExchange.MissingResponseIff | dns/router.go:403-512 | the missing-response error occurs if and only if the walk ends at a respond and no evaluate matched before it or the last matched one failed |
| RuleExchange.MissingResponseExplained | dns/router.go:403-512 | for a validated list, an evaluate rule precedes that respond as well |
| LegacyExchange.MatchFrom | dns/router.go:274-342 | the search never goes back |
| LegacyExchange.MatchDNS | dns/router.go:274-342 | the loop refines the recursive search; a found index lies strictly after the one it resumed from |
| LegacyExchange.LegacyMatchIsSound | dns/router.go:296-337 | for every rule list resolved to legacy mode, having no case for the new actions and options changes no search |
| LegacyExchange.NextQuery | dns/router.go:660-700 | one search of a retry loop decides how the walk and the log of exchanges go on |
| LegacyExchange.Exchange | dns/router.go:660-727 | the retry loop refines the recursive walk, whose end ExchangeAnswersFirst gives, and the log of its calls to servers equals the walk's log of exchanges |
| LegacyExchange.Lookup | dns/router.go:794-840 | the same for Lookup, whose end LookupAnswersFirst gives |
| LegacyExchange.StopsAtFinal | dns/router.go:333-336 | a candidate without a transport is exactly a reject or predefined rule |
| LegacyExchange.MatchIsNext | dns/router.go:274-342 | a search finds the next candidate, with its server and the options gathered since the search started |
| LegacyExchange.WalkSettles | dns/router.go:660-727 | the walk ends at a rule that is acceptable while all earlier candidates were passed over |
| LegacyExchange.FirstAcceptable | dns/router.go:660-727 | the retry loop equals the declarative first-acceptable-rule semantics; the default server is asked only after every candidate was passed over |
| LegacyExchange.AskedIsIncreasing | dns/router.go:660-727 | from any resumed search the log goes strictly up the rule list and is no longer than the rest of it plus one |
| LegacyExchange.AskedExactly | dns/router.go:794-840 | from any resumed search, a query is in the log if and only if its rule is a candidate the walk gets to and it carries that rule's server and options |
| LegacyExchange.AskedInOrder | dns/router.go:660-727 | the log has at most one exchange more than there are rules, in strictly increasing rule order; up to the settling rule it holds exactly the candidates with a server, and the default server if reached, each with its own server and options |
| LegacyExchange.ExchangeAnswersFirst | dns/router.go:660-727 | Exchange goes on after a candidate exactly if it gave no answer and was rejected under an address limit or may be bypassed while not canceled; it returns what the first other candidate, or the default server, says |
| LegacyExchange.LookupAnswersFirst | dns/router.go:794-840 | Lookup goes on exactly if a candidate gave no address and may be bypassed or failed under an address limit; what it returns for each kind of candidate |
| LegacyExchange.RouteAsksWith | dns/router.go:296-319 | every field of the options a route rule asks its own server with |
| LegacyExchange.DefaultAsksWith | dns/router.go:339-341 | the default server is asked with what was gathered since the last candidate |
| LegacyExchange.SearchStartIs | dns/router.go:274-290 | a search that gets to a rule started right after the last candidate before it |
| LegacyExchange.SwitchesGathered | dns/router.go:320-332 | any matching route-options rule of the search turns the cache off, none touches the optimistic cache |
| LegacyExchange.StrategyGathered | dns/router.go:320-332 | the last matching route-options rule of the search with a strategy decides it |
| LegacyExchange.TTLGathered | dns/router.go:320-332 | likewise the TTL |
| LegacyExchange.SubnetGathered | dns/router.go:320-332 | likewise the client subnet |
| LegacyExchange.OptionsReachOnlyOneSearch | dns/router.go:660-727 | a route-options rule that turns the cache off reaches a later server if and only if no other candidate lies between |
| DnsMessage.ExtractNegativeTTL | dns/client.go:113-125 | the lesser of TTL and minimum of the first SOA, as in section 5 of RFC 2308 |
| DnsMessage.ScanTTL | dns/client.go:134-144 | the least positive TTL of the non-OPT records, zero if none |
| DnsMessage.ComputeTimeToLive | dns/client.go:127-145 | the negative TTL when there is no answer but an SOA, the least positive TTL otherwise |
| DnsMessage.TimeToLiveUnique | dns/client.go:127-145 | that characterization determines the value |
| DnsMessage.NegativeTTLIs | dns/client.go:113-125 | the lesser of TTL and minimum of the first SOA of the authority section, none without one |
| DnsMessage.TimeToLiveIs | dns/client.go:127-145 | which of the two rules decides the TTL, and what each says, in terms of the records |
| DnsMessage.NormalizeTTL | dns/client.go:147-156 | rewrites all non-OPT records in place and nothing else, also when a record is listed twice |
| DnsMessage.TimeToLiveFixedPoint | dns/client.go:127-156 | computing the TTL again after normalizing gives the same TTL |
| DnsMessage.Copy | dns/client.go:330-351 | a copy has the same value and shares no record with anything before |
| ResponseCache.Cache.StoreCache | dns/client.go:330-351 | stores a private copy with its expiry, unless the TTL is zero |
| ResponseCache.Cache.LoadResponse | dns/client.go:401-437 | fresh, stale, expired and missing cases; the caller's records are its own and an expired entry is dropped |
| ResponseCache.FilterHints | dns/client.go:469-484 | drops the hints of the other address family from the answers, and nothing else |
| ResponseCache.FilterKeepsTTL | dns/client.go:468-491 | filtering hints does not change the computed TTL |
| ResponseCache.ApplyResponseOptions | dns/client.go:468-491 | filtering, then the computed or rewritten TTL, written to all records |
| ResponseCache.KeptHintsExact | dns/client.go:474-482 | exactly the address hints of the other family leave |
| ResponseCache.KeptHintsInOrder | dns/client.go:474-482 | the others keep their order |
| ResponseCache.TreatedIs | dns/client.go:468-491 | record by record what the response options change |
| CacheRuns.EntryOrigin | dns/client.go:227-250 | in every run an entry is the latest admitted response under its exact question and transport tag |
| CacheRuns.HitExplained | dns/client.go:401-437 | a hit is that response, NOERROR or NXDOMAIN with positive TTL, with exactly the remaining seconds or stale with TTL 1 inside the optimistic window |
| CacheRuns.RecordTTLShrinksIff | dns/client.go:401-437 | between two queries of a run served the same stored response, the TTL in every record does not grow if and only if entries never expire, the first query is not within the last second, or the second is not after the expiry |
| CacheRuns.RecordTTLMayGrow | dns/client.go:421-436 | a run in which a record is served with TTL 0 and then with TTL 1 |
| CacheRuns.OnlyTTLChanges | dns/client.go:401-437 | between those two queries nothing but the TTL of the records differs, stale stays stale, and the logged number of seconds does not grow |
| CacheRuns.ServedIff | dns/client.go:401-437 | an admitted response that was not dropped is served if and only if it is fresh or inside the optimistic window, however often it was asked for in between |
| SingleFlight.InvStep | dns/client.go:183-199 | every operation on the concurrent maps and channels keeps the ownership invariant |
| SingleFlight.EachChannelHasOneOwner | dns/client.go:183-199 | in every interleaving a channel in the map has exactly one owner in flight; a published channel is open while owned and closed exactly once otherwise |
| SingleFlight.OneExchangePerKey | dns/client.go:183-199 | no two exchanges are in flight under the same key |
| SingleFlight.EnteringDecides | dns/client.go:185-199 | an exchange owns its key exactly if nobody does, and otherwise waits for the owner |
| SingleFlight.DeletesOwnEntry | dns/client.go:194-199 | the entry an owner deletes is the one it stored |
| SingleFlight.WaitersAreServed | dns/client.go:185-199 | a waiter can wake exactly when its channel has no owner, and otherwise the owner can take its next step |
| SingleFlight.OneRefreshPerKey | dns/client.go:493-500 | at most one background refresh per key is in flight, and the key is marked exactly as long; refreshes come from exchanges and from cache reads without the lock |
| SingleFlight.RefreshIsUnderWay | dns/client.go:493-500 | after a stale response a refresh of its key is under way, a new one exactly if there was none |
| UsbMailbox.LinkStep | daemon/started_service_usbip.go:213-227 | every channel operation of producer and forwarder keeps the mailbox invariant |
| UsbMailbox.MailboxIsLatestWins | daemon/started_service_usbip.go:213-227 | no call loses its snapshot, the third attempt always finds room, what is received is an in-order selection of what was produced, and the newest is in the slot or received last |
| UsbMailbox.ProducerNeverBlocks | daemon/started_service_usbip.go:213-227 | a producer can always take its next step and is done after three |
| UsbMailbox.ChannelHasRoom | daemon/started_service_usbip.go:149-183 | the shared channel never holds more entries than there are servers |
| UsbMailbox.ForwardStep | daemon/started_service_usbip.go:168-183 | handing a snapshot to the shared channel keeps order and the newest snapshot under way |
| UsbMailbox.PublishStep | daemon/started_service_usbip.go:190-211 | so does publishing |
| UsbMailbox.ClientSeesNewest | daemon/started_service_usbip.go:158-211 | once nothing is under way, the last message shows the newest snapshot of the server, once |
| UsbMailbox.ClientNeverGoesBack | daemon/started_service_usbip.go:190-211 | a message never shows an older snapshot of a server than the one before |
| UsbSubmit.Device.constructor | daemon/started_service_usbip.go:283-289 | a new device has no requests and is open |
| UsbSubmit.Device.NextSeq | daemon/started_service_usbip.go:340-340 | the counter steps by one and wraps at 64 bits |
| UsbSubmit.Device.TryRegister | daemon/started_service_usbip.go:342-348 | registers the channel unless the device is closed |
| UsbSubmit.Device.Forget | daemon/started_service_usbip.go:349-353 | removes the number from pending and nothing else |
| UsbSubmit.Device.LookUp | daemon/started_service_usbip.go:400-405 | the channel registered under the number, if any |
| UsbSubmit.Device.MarkClosed | daemon/started_service_usbip.go:413-419 | sets the flag and tells only the first caller so |
| UsbSubmit.InvStep | daemon/started_service_usbip.go:339-423 | every section and channel operation keeps the matching invariant |
| UsbSubmit.AnswersMatch | daemon/started_service_usbip.go:339-390 | in every interleaving, even past a wrap of the counter, a Submit returns only a response with its own number |
| UsbSubmit.PendingIsInFlight | daemon/started_service_usbip.go:339-423 | pending holds only calls in flight, each under its number |
| UsbSubmit.RemovedOnce | daemon/started_service_usbip.go:412-423 | RemoveDevice is called at most once, and exactly once when the closing calls of a named device have returned |
| UsbSubmit.PendingIsExact | daemon/started_service_usbip.go:339-410 | until the counter wraps, pending is exactly the calls in flight, so a response reaches the call that asked |
| UsbSubmit.DeliveryArrives | daemon/started_service_usbip.go:399-410 | until the counter wraps, a response delivered to a waiting Submit that has none yet is exactly what it can receive |
| UsbSubmit.ChannelKept | daemon/started_service_usbip.go:377-389 | what is in a response channel stays until its Submit receives it, and is what that returns |
| UsbSubmit.StrayIsDropped | daemon/started_service_usbip.go:399-405 | a response nobody waits for changes nothing |
| UsbSubmit.EnrollDecides | daemon/started_service_usbip.go:342-348 | a Submit registers unless the device is closed, and then returns at once |
| UsbSubmit.SubmitReturns | daemon/started_service_usbip.go:339-390 | in every interleaving a Submit fails exactly if its send failed or it was canceled, and answers exactly if it received |
| ConnectionCopy.InvStep | route/conn.go:268-381 | every swap, handler call, close and start keeps the relay invariant |
| ConnectionCopy.RoomToSwap | route/conn.go:280-285 | a copy that swaps the flag finds it free or swapped by the other copy only |
| ConnectionCopy.HandlerRunsAtMostOnce | route/conn.go:268-381 | in every interleaving the handler runs at most once: from a failed kick with no copy started, from the second stream copy when the first is over, or from the first packet copy |
| ConnectionCopy.HandlerRunsOnce | route/conn.go:134-381 | in every finished run it has run exactly once, by that caller, and both ends are closed |
| ConnectionCopy.FailuresAreReal | route/conn.go:268-342 | in every run the relay is given up for a kick exactly if a kick had to write and could not, and a copy counts as failed exactly if its copying or half close failed |
| ConnectionCopy.EndsAreLeftRight | route/conn.go:268-279 | a failed stream copy leaves both ends closed; one that ended well its destination half closed, or closed if it cannot be, and nothing else while the other copy works on |
| ConnectionCopy.RunIsBounded | route/conn.go:134-381 | every step brings the relay nearer to its end |
| ConnectionCopy.RunsFinish | route/conn.go:262-381 | every run has at most 32 steps and can stop only in a finished state |

## Left out

- ServiceStatus: whether STARTED was set for the instance that is current when reloads overlap, and handlers that read the instance again after waitForStarted without a status check.
- ServiceStatus: log buffers, subscribers and the URL-test and mode hooks.
- ConnectionStream: connection details other than counters and closing time; filters and sorting of the client.
- ConnectionReplay.ClientTotals: the client's totals are unbounded integers, not int64.
- TransportManager.Manager.Start: only the stage that runs the scheduler; the other stages start each transport in list order.
- TransportManager: that the default server is never FakeIP across Remove, which the code does not promise; runs that go on after Close; two slices sharing one backing array.
- DnsRules: a nil router, nested-action checks, failures while building a rule, and the check that evaluate rules do not name a FakeIP server.
- RuleExchange: the reply text of reject methods, timeouts of actions, reverse mapping, and lookupWithRules, which runs the same walk per address family.
- RuleSetUpdates.ModeStaysValid: Start is one step there; what a start that overlaps an update does is StartRaceIff.
- LegacyExchange: rule matching is an arbitrary predicate per rule; cancellation is asked once per reply.
- DnsMessage: wire format, EDNS options, padding and client subnet; the three record lists are one list of records that name their section.
- ResponseCache.Cache.LoadResponse: seconds are divided exactly, where the code goes through a floating-point duration; the persistent cache file, whose key drops the question class, is not part of this model.
- CacheRuns: that a hit equals a fresh answer under other options, which does not hold because filtering happens before storing.
- SingleFlight: what is exchanged while the lock is held, and panics inside an exchange.
- UsbMailbox: cancellation of the stream and send errors, which end it; a snapshot is named by the call that produced it.
- UsbSubmit: the fields of requests and responses other than the number.
- ConnectionCopy: dialing, TLS fragments, the tracked-connection list, logging, bytes copied, and the packet path's failed handshake report, which never runs the handler.
- Everything else in the repository: inbounds, outbounds, protocol code, generated files, option parsing and platform glue.
