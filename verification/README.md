# snx-edge, modelled in Dafny

snx-edge-server keeps a VPN tunnel up beside a MikroTik router. It programs the
router's policy routing over REST, follows the tunnel's state with NAT rules, a
default route and a split-DNS file, reconnects when the tunnel drops, and serves
an authenticated management API; a desktop client renews its tokens against it.
This project models the server's control plane and the client's renewal protocol,
and proves what they keep over all runs, all failures and all interleavings.

| files | subject |
|---|---|
| Text, Comments | string operations; ownership of router objects read from comments |
| Router, PolicyRouting, Provisioner | the fallible router; the layout and its operations; the provisioner request by request |
| Sweeping, Building, Settling, Scripting | what single operations remove, create and settle under failures |
| Convergence, TagClash, Rollback, Leftovers, KillSwitchLoss, Presence, Ordering | what whole runs guarantee under failures, and for which tags |
| FailClosed, Packets | what the routes and rules in place do to packets |
| Tunnel, TunnelManager | connect, challenge, disconnect and the event handlers |
| Reconciler, DataPlane, Following | the status-following protocol; NAT rules, route and DNS; both driven by the tunnel manager |
| Supervisor | backoff bursts, the give-up latch, the operator's calls |
| Permissions, AuthStore, AuthServer, AuthProofs, Revocation, Authority, Lockout | accounts, tokens, sessions, the generation cache, lockout |
| CacheRace, IssueRace, LockRace | the generation cache, token issue and the account lock among concurrent requests |
| ClientRefresh, ClientProgress | token renewal by any number of tasks |
| LogBuffer, ProfileSecrets, ProfileRoundTrip, KeyDecoding, SplitDns, DnsNames | self-contained algorithms |

Objects the server updates in place are classes. Their methods follow the source
statement by statement, and each is tied by its postcondition to a function on the
object's state; the lemmas are about those functions, over sequences of steps.
A failing request is an input: each router request works, is refused, or is carried
out with its answer lost; each dial, challenge and token exchange ends as some
parameter says; each data-plane edit works or fails, and a status event may be lost.
Runs of the authentication state start from a first start, or from any state with the invariant
`AuthProofs.Inv`, such as a database with an enabled admin and nothing cached.

## Where the code does less, or other, than its comments say

- The rollback is described as removing only what the failed run created. It goes
  by kind: some failed run takes an earlier object along exactly when that is a
  non-legacy object of a step kind other than the last
  (`Rollback.ObjectIsLostWhen`, `Rollback.RollbackSparesPrior`; a lost table in
  `Rollback.RollbackRemovesEarlierTable`).
- `provisioner.rs:141` means never to leave a half-applied layout. What the failing
  step itself created stays, unless the tag spells a completed step's kind
  (`Leftovers.LeftExactly`, `Leftovers.LeftWhen`; a lost answer in
  `Rollback.LostAnswerOutlivesRollback`). Which targets some failure leaves behind
  can be told before the call (`Leftovers.TargetIsLeftWhen`).
- `provisioner.rs:200-201` speaks of rolling `rfc1918-bypass` back. That step is the
  last, so it is never among the completed ones of a failed run
  (`Rollback.LastStepNotApplied`).
- `provisioner.rs:147-151` says the operator's address-list entries always survive.
  An entry's note goes into its comment unchecked (`api/routing.rs:106`), and some
  run's rollback takes the entry exactly if its kind, the tag or a later field of
  its note spells a step's kind other than the last (`Rollback.RollbackTakesEntry`;
  a lost entry in `Rollback.NoteLosesEntry`).
- `supervisor.rs:154-156` says the kill-switch route stays if a later setup step
  fails. From a store without step kinds it stays after a rollback exactly if its
  own step failed with the answer to the creation lost and the tag spells no
  completed step's kind (`KillSwitchLoss.SwitchIsLeftWhen`); a run that fails one step later removes it
  (`KillSwitchLoss.LaterFailureRemovesSwitch`).
- After a perfect setup the layout still reads "partial", for good, if the operator
  owns a routing table of that name or lists all three private ranges
  (`Presence.ConfiguredWhen`).
- The prefix shortcut in the tag match changes the meaning of a tag exactly when the
  tag is not one trimmed field (`Comments.TagIsAField`). If the tag itself spells a
  `kind=`, objects match kinds that are not theirs (`TagClash.OwnKindOnly`).
  Re-running setup repairs every failed run exactly for the tags
  `Convergence.Harmless` describes (`TagClash.ConvergesExactly`).
- The kill switch fails closed exactly if the routing mark and the table have the
  same name and the tag spells neither route's kind (`FailClosed.FailsClosedExactly`).
- Setup never compares gateways. If the container's address changed, an old default
  route is kept and none to the new address made
  (`FailClosed.RouteToContainerWhen`).
- The data plane follows the last decision, not always the status: a drop that is
  overtaken by a new `Connecting` leaves it engaged, and an interface change that is
  overtaken leaves the old MASQUERADE rule (`Reconciler.EngagedWhileConnecting`,
  `Reconciler.StaleRuleSurvives`, with the exact statement in
  `Reconciler.MatchesLastDecision`).
- A reader that falls behind skips lost events and does not look at the status
  (`reconciler.rs:247`); the channel also carries every log line. However many events
  were lost, a settled plane is right exactly if the status suits the last decision
  (`Reconciler.AgreementWhen`, `Reconciler.LostEventHarmsWhen`).
- A failing iptables clean-up does not keep the default route from being removed, as
  promised (`Reconciler.RouteRemovalIsTried`), but a failing route removal leaves the
  split-DNS settings in place (`Reconciler.DnsOutlivesFailedRoute`).
- If the tunnel cannot be created after a challenge code was accepted, the status
  stays `Mfa` and no code is taken until a connect, a disconnect or a reconnect.
  That is the only way into this state (`Tunnel.StrandedExactly`,
  `Tunnel.StrandedUntilConnect`).
- The comment at `supervisor.rs:60-64` adds up ten delays (362 s). The burst sleeps
  after nine attempts, 302 s (`Supervisor.SleptInAll`, `Supervisor.BurstsAreBounded`).
- An operator's disconnect is meant to stop reconnecting. It does exactly when no
  burst is under way (`Supervisor.DisconnectSilences`). The API's reconnect does not
  clear the give-up latch (`Supervisor.LatchHolds`).
- A task may exchange away an access token the server never refused
  (`ClientRefresh.RefusesOneSpendsAnother`), exactly when another renewal was stored
  between building its request and sending it (`ClientRefresh.SpendsRefusedWhen`);
  never the same one twice.
- A revocation is meant to land immediately (`users.rs:126`, `state.rs:152-155`), or
  within 30 seconds (`auth.rs:308-311`). It lands at once if no other request is
  under way (`CacheRace.AloneLandsAtOnce`). A lookup that read the database before
  and writes the cache after brings the revoked token back
  (`CacheRace.RevocationUndone`), for at most 30 seconds and the time such a write
  can lag (`CacheRace.RevokedWithin`), exactly while somebody still holds the old
  generation (`CacheRace.LetInAgainWhen`).
- A refresh token is meant for one renewal. Two requests that both find its session
  before either deletes it both renew, and only those
  (`IssueRace.BothRenewWhen`, `IssueRace.RenewedTwice`).
- A role is read before the password is compared and stamped with the generation
  read after it (`auth.rs:61-128`, `auth.rs:247`). A demotion in between yields
  tokens of the old role that are let in (`IssueRace.DemotedStaysAdmin`), exactly as
  long as the generation stays (`IssueRace.OutdatedWhen`). A sign-in under way also
  survives a password change (`IssueRace.LateSessionRenews`).
- Lifting an expired lock is called atomic (`auth.rs:72-73`). It is not: it takes away
  a lock set since the lock was read, and a lock in force fails to hold exactly while
  such a sign-in is under way (`LockRace.BreachedWhen`, `LockRace.FreshLockLifted`).
- Role levels do not order permissions: what a viewer may and an operator may not is
  reading routing state, and nothing else (`Permissions.ViewerOverOperator`).
- No key comes out of the last hexadecimal fallback in `db_secrets.rs:158-186`
  (`KeyDecoding.LastResortFails`).

## Model

| member | source | states |
|---|---|---|
| Comments.TagIsAField | apps/snx-edge-server/src/routeros/client.rs:325-334 | the matcher means "some trimmed field is the tag", for every comment, iff the tag is one trimmed field without `;` |
| Comments.SetupComment | apps/snx-edge-server/src/routeros/provisioner.rs:23-25 | a setup comment is managed, never legacy, and matches another kind iff the tag spells it |
| Comments.AddressEntry | apps/snx-edge-server/src/routeros/client.rs:197-231 | an address-list entry is never legacy for any note, and matches a foreign kind iff the tag or a later field of the note spells it |
| Router.RouterOs.List | apps/snx-edge-server/src/routeros/client.rs:100-121 | a request with its fate; the whole state after it |
| Router.RouterOs.Create | apps/snx-edge-server/src/routeros/client.rs:124-150 | creates unless refused, also when the answer is lost |
| Router.RouterOs.Delete | apps/snx-edge-server/src/routeros/client.rs:153-175 | deletes the one object with that id unless refused; a missing object is an error |
| Router.IdsRoundTrip | apps/snx-edge-server/src/routeros/client.rs:153-175 | an id is accepted iff it is a star and hexadecimal digits in either case; every id the router hands out is, and none contains a URL delimiter |
| PolicyRouting.PresentExtremes | apps/snx-edge-server/src/routeros/provisioner.rs:775-791 | the count is 0 iff no kind is present and full iff all are |
| PolicyRouting.LayoutReads | apps/snx-edge-server/src/routeros/provisioner.rs:794-800 | "absent" iff none of the ten kinds is there, "configured" iff all are |
| Provisioner.Provisioner.EnsureKind | apps/snx-edge-server/src/routeros/provisioner.rs:491-752 | one listing, then a creation for each uncovered target up to the first error |
| Provisioner.Provisioner.DeleteListed | apps/snx-edge-server/src/routeros/provisioner.rs:225-249 | deletes the selected objects in order up to the first error and counts them |
| Provisioner.Provisioner.SweepOne | apps/snx-edge-server/src/routeros/client.rs:255-281 | lists one path and deletes what is selected |
| Provisioner.Provisioner.SweepPaths | apps/snx-edge-server/src/routeros/provisioner.rs:202-219 | sweeps the six paths in order, stopping at the first error |
| Provisioner.Provisioner.RunAllSteps | apps/snx-edge-server/src/routeros/provisioner.rs:100-139 | runs the steps in order; the report lists the completed ones and the failing one |
| Provisioner.Provisioner.Setup | apps/snx-edge-server/src/routeros/provisioner.rs:81-167 | best-effort migration, the steps, and the rollback by applied kinds |
| Provisioner.Provisioner.Teardown | apps/snx-edge-server/src/routeros/provisioner.rs:170-186 | sweeps everything carrying the tag |
| Provisioner.Provisioner.SetDefaultRoutePresent | apps/snx-edge-server/src/routeros/provisioner.rs:465-468 | the default-route step on its own |
| Provisioner.Provisioner.ClearDefaultRoute | apps/snx-edge-server/src/routeros/provisioner.rs:475-487 | deletes the default-route objects |
| Provisioner.Provisioner.CountPresent | apps/snx-edge-server/src/routeros/provisioner.rs:775-791 | the loop computes the number of kinds present |
| Provisioner.Provisioner.PresenceSnapshot | apps/snx-edge-server/src/routeros/provisioner.rs:369-456 | changes no object; when every listing works it reports the layout state of the store, otherwise some listing failed |
| Sweeping.SweepsAll | apps/snx-edge-server/src/routeros/provisioner.rs:202-270 | under any failures a sweep removes only selected objects and keeps guarded ones in order; a reported count means exactly the selected ones are gone |
| Sweeping.TeardownExact | apps/snx-edge-server/src/routeros/provisioner.rs:170-186 | on a reliable router exactly the untagged objects remain, in order, the count is right and presence is "absent" |
| Sweeping.TeardownResumes | apps/snx-edge-server/src/routeros/provisioner.rs:170-186 | after any partial teardown, a second one finishes the job |
| Building.TargetKind | apps/snx-edge-server/src/routeros/client.rs:347-353 | besides its own, a created object is of exactly the kinds the tag spells |
| Building.TargetCovers | apps/snx-edge-server/src/routeros/provisioner.rs:491-752 | a step's check accepts its own target, and another step's exactly if it looks for the kind alone, on the same path, and the tag spells that kind |
| Building.RunStepsOrder | apps/snx-edge-server/src/routeros/provisioner.rs:100-139 | the report is a prefix of the step order ending at the failure |
| Building.SetupSparesOperatorData | apps/snx-edge-server/src/routeros/provisioner.rs:141-166 | whatever fails, untagged objects and objects neither legacy nor of a step kind are untouched, ids and order included |
| Building.TeardownUndoesSetup | apps/snx-edge-server/src/routeros/provisioner.rs:170-186 | setup then teardown leaves the store teardown alone leaves |
| Building.RollbackConfined | apps/snx-edge-server/src/routeros/provisioner.rs:202-249 | after a completed rollback no object of an applied kind is left, of the prior non-legacy objects exactly those of applied kinds are gone, and what is new is of the failed step's kind |
| Building.SweepLeaves | apps/snx-edge-server/src/routeros/provisioner.rs:202-249 | a sweep cut short keeps every unselected object |
| Settling.RunStepsSettle | apps/snx-edge-server/src/routeros/provisioner.rs:100-139 | whatever fails, every completed step's check succeeds afterwards for each of its targets |
| Settling.RunStepsAdd | apps/snx-edge-server/src/routeros/provisioner.rs:491-752 | the steps add only targets of steps that ran, and only such as nothing covered before |
| Settling.RunStepsOnce | apps/snx-edge-server/src/routeros/provisioner.rs:491-752 | no target is there twice after the steps if none was before |
| Scripting.FailsAt | apps/snx-edge-server/src/routeros/provisioner.rs:100-139 | a run can be made to fail at any step's listing, the steps before it done as without failures, with any fate for its rollback |
| Convergence.SetupConsistent | apps/snx-edge-server/src/routeros/provisioner.rs:81-167 | any run, however it fails, for every tag, keeps every step-kind object a missing target present at most once |
| Convergence.GoodRun | apps/snx-edge-server/src/routeros/provisioner.rs:81-167 | a run without failures completes the layout, and on a complete store changes nothing |
| Convergence.CompleteBag | apps/snx-edge-server/src/routeros/provisioner.rs:491-752 | a complete store is the operator's objects plus each target they do not cover, once |
| Convergence.Converges | apps/snx-edge-server/src/routeros/provisioner.rs:81-167 | for every harmless tag, after any number of runs with any failures one good run ends in the same bag as if it had been the only run, and a further run changes nothing |
| TagClash.OwnKindOnly | apps/snx-edge-server/src/routeros/client.rs:347-353 | created objects match exactly their own kind iff the tag spells none |
| TagClash.NeverRepaired | apps/snx-edge-server/src/routeros/provisioner.rs:516-641 | for every tag that is not harmless a failed run on an empty router that no number of good runs repairs |
| TagClash.ConvergesExactly | apps/snx-edge-server/src/routeros/provisioner.rs:81-167 | re-running converges on every store under all failures iff the tag is harmless: it spells the first kind of the mangle or route path only with all later ones |
| Rollback.LeftoversOfFailedStep | apps/snx-edge-server/src/routeros/provisioner.rs:158-162 | from a store without step kinds, for every tag, whatever of a step kind survives a rollback is a target of the failing step, once |
| Leftovers.SplitAtFailure | apps/snx-edge-server/src/routeros/provisioner.rs:100-139 | a failed run is the steps before the failing one, gone through, and that step's failure |
| Leftovers.LeftExactly | apps/snx-edge-server/src/routeros/provisioner.rs:141-166 | from a store without step kinds a rolled-back run leaves, of a step kind, exactly the objects its failing step created, and none if the tag spells a completed step's kind |
| Leftovers.LeftWhen | apps/snx-edge-server/src/routeros/provisioner.rs:141-166 | something is left iff the failing step's listing worked, a target was missing and the first creation was not refused, and the tag spells no completed step's kind |
| Leftovers.TargetIsLeftWhen | apps/snx-edge-server/src/routeros/provisioner.rs:491-752 | before the call: some failed and rolled-back run leaves a given target behind iff the operator's objects do not cover it, no earlier step takes its place, and the tag spells no earlier step's kind |
| Rollback.ObjectIsLostWhen | apps/snx-edge-server/src/routeros/provisioner.rs:225-249 | before the call: some failed and rolled-back run loses a given non-legacy object iff it is of a step kind other than the last |
| Rollback.RollbackSparesPrior | apps/snx-edge-server/src/routeros/provisioner.rs:141-152 | every failed and rolled-back run keeps all prior objects iff the store holds none of those |
| Rollback.LastStepNotApplied | apps/snx-edge-server/src/routeros/provisioner.rs:200-201 | a failed run never has the last step among the completed ones, so its kind is never rolled back |
| Rollback.OnlyFailingStepAdds | apps/snx-edge-server/src/routeros/provisioner.rs:141-166 | what a rolled-back run adds is left of the failing step; nothing is there twice that was not before |
| Rollback.EntryIsForeign | apps/snx-edge-server/src/api/routing.rs:95-110 | an entry added through the API is spared by setup and rollback iff neither its kind, the tag nor a later field of its note spells a step's kind |
| Rollback.RollbackTakesEntry | apps/snx-edge-server/src/routeros/provisioner.rs:147-151 | some failed and rolled-back run loses an operator's entry iff its kind, the tag or a later field of its note spells a step's kind other than the last |
| Rollback.NoteLosesEntry | apps/snx-edge-server/src/api/routing.rs:95-110 | for every kind, text and such step, a run that loses the entry whose note goes on with that step's kind |
| Rollback.RollbackRemovesEarlierTable | apps/snx-edge-server/src/routeros/provisioner.rs:225-249 | a concrete run in which the rollback deletes an earlier run's table |
| Rollback.LostAnswerOutlivesRollback | apps/snx-edge-server/src/routeros/provisioner.rs:202-219 | a concrete run in which a creation with a lost answer survives the rollback |
| KillSwitchLoss.SwitchIsLeftWhen | apps/snx-edge-server/src/supervisor.rs:154-156 | after a rollback from a store without step kinds the kill switch is left iff its own creation was carried out with the answer lost, and the tag spells no completed step's kind |
| KillSwitchLoss.LaterFailureRemovesSwitch | apps/snx-edge-server/src/routeros/provisioner.rs:202-219 | a run from the empty store that fails at the DNS step and leaves no kill switch |
| Presence.ConfiguredWhen | apps/snx-edge-server/src/routeros/provisioner.rs:369-456 | after a good setup, for every tag, presence is "configured" iff the operator has neither that table nor all three private ranges |
| FailClosed.CallsKeep | apps/snx-edge-server/src/routeros/provisioner.rs:465-487 | any sequence of failing or working route calls keeps the blackhole and adds routes only to our table |
| FailClosed.FailsClosed | apps/snx-edge-server/src/routeros/provisioner.rs:578-641 | after a successful setup a marked packet never reaches the main table; it goes to the container iff a default route exists and its gateway answers, else to the blackhole |
| FailClosed.OpenWhenNamesDiffer | apps/snx-edge-server/src/routeros/provisioner.rs:600-641 | with different mark and table names every marked packet uses the main table |
| FailClosed.OneReleaseOpens | apps/snx-edge-server/src/routeros/provisioner.rs:475-487 | with a tag that spells one of the two routes' kinds one release of the default route opens the table |
| FailClosed.FailsClosedExactly | apps/snx-edge-server/src/routeros/provisioner.rs:578-641 | no sequence of route calls ever opens the table iff mark and table have the same name and the tag spells neither route's kind |
| FailClosed.RouteToContainerWhen | apps/snx-edge-server/src/routeros/provisioner.rs:602-608 | after a successful setup there is a default route to the current address iff there was one before, or no default-route object at all |
| Packets.PacketsAfterSetup | apps/snx-edge-server/src/routeros/provisioner.rs:516-722 | after a successful setup on a router without firewall rules of its own, under a tag that spells no kind, for every packet: marked iff a new connection from the client list to the corp list; routed by our mark iff its connection is marked; SYNs of marked connections clamped; DNS of clients redirected to the container; DNS over TLS of clients dropped; fast-tracked iff unmarked and established |
| Packets.CorpTrafficStaysIn | apps/snx-edge-server/src/routeros/provisioner.rs:525-541 | joined with the routes: no packet of a client's connection to corp, from the first on, ever uses the main table, nor is it fast-tracked; all other packets keep the table they had |
| Packets.PreroutingOf | apps/snx-edge-server/src/routeros/provisioner.rs:516-563 | rules added behind ours do not change what a marked packet gets |
| Packets.SetupPlaces | apps/snx-edge-server/src/routeros/provisioner.rs:100-139 | under each path without objects of its own, a successful setup leaves exactly its targets, in step order |
| Packets.TableAndBypass | apps/snx-edge-server/src/routeros/provisioner.rs:491-514 | after every successful setup, for every tag: the table is there, and each of the three private ranges is in the bypass list itself |
| Ordering.NothingDangles | apps/snx-edge-server/src/routeros/provisioner.rs:202-219 | wherever a sweep stops: if an object is gone, nothing selected that may refer to it is left |
| Ordering.TableFirst | apps/snx-edge-server/src/routeros/provisioner.rs:116-139 | however far a run of the steps gets, whatever it created elsewhere, the table is there |
| Tunnel.RunKeeps | apps/snx-edge-server/src/tunnel.rs:251-530 | over every sequence of steps: busy iff exactly one live handler; live handlers are remembered and have a connector and an authenticated session; the last label sent names the status |
| Tunnel.ConnectOutcome | apps/snx-edge-server/src/tunnel.rs:251-316 | a connect is let in iff nothing runs; it ends in `Error` with nothing running, at the challenge, or with one new handler |
| Tunnel.ChallengeOutcome | apps/snx-edge-server/src/tunnel.rs:498-530 | in every reachable state: a code is taken iff the manager waits for one and the gateway asks again or the tunnel starts; then the new question or one new handler, else nothing shown changes |
| Tunnel.EventOutcome | apps/snx-edge-server/src/tunnel.rs:350-446 | what one event does at the live handler after any run: a fault ends in that error, `Up` shows the connection, `Down` ends it, a rekey changes the address shown |
| Tunnel.CloseOutcome | apps/snx-edge-server/src/tunnel.rs:151-159 | the end of the live handler's channel is an error with nothing running |
| Tunnel.StatusIsSeen | apps/snx-edge-server/src/tunnel.rs:350-446 | after every run the status of a running tunnel is the last connection announced to its handler, with the address of the last rekey since, and `Connecting` before the first; without a running tunnel it is neither |
| Tunnel.DisconnectKeeps | apps/snx-edge-server/src/tunnel.rs:459-491 | disconnect leaves no live handler and no session, and succeeds iff not already disconnected |
| Tunnel.StrandedExactly | apps/snx-edge-server/src/tunnel.rs:498-530 | in every reachable state a step leaves the manager asking for a code and taking none iff it is a code accepted without a tunnel at the gate, or it was so before and the step is no connect, disconnect or reconnect |
| Tunnel.AcceptedCodeWithoutTunnel | apps/snx-edge-server/src/tunnel.rs:498-530 | at the gate, of all answers exactly the code accepted without a tunnel does that, with status and labels unchanged |
| Tunnel.StrandedUntilConnect | apps/snx-edge-server/src/tunnel.rs:251-316 | in that state every code is refused and changes nothing, and a connect is let in and ends it |
| TunnelManager.TunnelManager.SetStatus | apps/snx-edge-server/src/tunnel.rs:562-575 | writes the status and sends its label |
| TunnelManager.TunnelManager.StartTunnelTasks | apps/snx-edge-server/src/tunnel.rs:318-457 | two remembered tasks, one of them the live handler, then `Connecting` |
| TunnelManager.TunnelManager.Connect | apps/snx-edge-server/src/tunnel.rs:251-316 | the state and result for every way a dial ends; busy iff a handler is live, and then refused and unchanged; a failure ends in `Error` with nothing live, success in at most one new handler |
| TunnelManager.TunnelManager.ChallengeCode | apps/snx-edge-server/src/tunnel.rs:498-530 | the state and result for every answer; a code is taken only while nothing runs, and a refused one leaves status and handlers alone |
| TunnelManager.TunnelManager.Disconnect | apps/snx-edge-server/src/tunnel.rs:459-491 | aborts the remembered tasks and clears connector and session; no handler is live afterwards |
| TunnelManager.TunnelManager.Reconnect | apps/snx-edge-server/src/tunnel.rs:493-496 | disconnect, its error ignored, then connect; never two handlers, and never an old one |
| TunnelManager.TunnelManager.HandleEvent | apps/snx-edge-server/src/tunnel.rs:350-446 | what one tunnel event does to status, labels, handlers and session at the live handler; it keeps a valid manager valid |
| TunnelManager.TunnelManager.ChannelClosed | apps/snx-edge-server/src/tunnel.rs:151-159 | an unexpected end becomes `Error`; an intentional one leaves the status alone |
| Reconciler.RunKeeps | apps/snx-edge-server/src/reconciler.rs:230-320 | over every interleaving, with failing edits and lost events: how far the last action got, what its working edits achieved, and that a status read after its last announcement is the one acted on |
| Reconciler.Agreement | apps/snx-edge-server/src/reconciler.rs:58-68 | in every interleaving, once settled with the last announcement read: down means no masquerade, no route and no split DNS, connected over a named interface means its rule, the route iff there is a router, and exactly its DNS, as far as the edits worked; with no event lost it was read, with no failure all is done; untagged rules are never touched |
| Reconciler.MatchesLastDecision | apps/snx-edge-server/src/reconciler.rs:254-320 | the plane masquerades exactly the interfaces engaged since the rules were last cleared, and idle is as last decided, as far as the edits worked |
| Reconciler.ReadActsOn | apps/snx-edge-server/src/reconciler.rs:58-68 | a status read leads to action iff the tunnel is down or connected over a named interface; otherwise nothing changes |
| Reconciler.EngagingStops | apps/snx-edge-server/src/reconciler.rs:255-282 | engaging goes no further than its first failing edit |
| Reconciler.RouteRemovalIsTried | apps/snx-edge-server/src/reconciler.rs:283-313 | whatever fails, an idle reconciler that last decided to disengage has asked for the route's removal; the route is there only if the router failed |
| Reconciler.DnsOutlivesFailedRoute | apps/snx-edge-server/src/reconciler.rs:283-317 | a run that settles disconnected with the split-DNS settings still in place |
| Reconciler.AgreementWhen | apps/snx-edge-server/src/reconciler.rs:230-320 | in every interleaving, however many events were lost, a settled plane whose last edits worked is as the status demands iff that suits the last decision |
| Reconciler.LostEventHarmsWhen | apps/snx-edge-server/src/reconciler.rs:247 | after any run, a status change whose event is lost leaves the plane as demanded iff the new status suits the last decision |
| Reconciler.StaleRuleSurvives | apps/snx-edge-server/src/net.rs:49-69 | a run that settles with a rule for a vanished interface |
| Reconciler.EngagedWhileConnecting | apps/snx-edge-server/src/tunnel.rs:251-261 | a run that settles engaged while `Connecting` |
| DataPlane.DataPlane.ApplyVpnMasquerade | apps/snx-edge-server/src/net.rs:49-69 | refuses an empty name; otherwise the rule is there, once added only if it was missing |
| DataPlane.DataPlane.ClearVpnMasquerade | apps/snx-edge-server/src/net.rs:71-87 | the loop removes every copy of the rule and nothing else |
| DataPlane.DataPlane.CleanupManaged | apps/snx-edge-server/src/net.rs:89-143 | walking a stale listing leaves exactly the rules without the tag on their line, in order, duplicates included; foreign rules that carry it go too |
| DataPlane.DataPlane.Apply | apps/snx-edge-server/src/reconciler.rs:255-320 | one uninterrupted action, whichever of its edits fail and with or without a router client; the result says whether a critical edit failed |
| DataPlane.ActionRuns | apps/snx-edge-server/src/reconciler.rs:255-320 | the protocol's edits, uninterrupted, end in that same plane |
| Following.ManagerFollowsProtocol | apps/snx-edge-server/src/tunnel.rs:562-575 | every tunnel-manager step is a sequence of status writes the protocol allows, with one event per announced write |
| Following.ManagerAgreement | apps/snx-edge-server/src/reconciler.rs:1-18 | for every manager run and every interleaving with the reconciler: the shared status is the manager's, every label sent is delivered or on its way, and once settled the plane suits that status; without a live handler and unless a code is awaited it is disengaged entirely |
| Following.CatchesUp | apps/snx-edge-server/src/reconciler.rs:230-252 | from any point of any run the channel and the reconciler alone can settle |
| Following.ManagerSettles | apps/snx-edge-server/src/reconciler.rs:230-252 | every manager run drives the protocol to a settled end with nothing unread |
| Supervisor.DelayIsCappedDoubling | apps/snx-edge-server/src/supervisor.rs:73-77 | the delay is the doubling sequence cut off at 60 s |
| Supervisor.SleptInAll | apps/snx-edge-server/src/supervisor.rs:60-69 | a burst capped at n >= 6 attempts sleeps 62 + 60 (n - 6) seconds |
| Supervisor.Supervisor.InitiateWithBackoff | apps/snx-edge-server/src/supervisor.rs:234-271 | at most 10 attempts and 302 s; stops exactly at a hold or shutdown; latches iff the first ten attempts all failed uninterrupted; is a run of the supervisor among the calls |
| Supervisor.BurstsAreBounded | apps/snx-edge-server/src/supervisor.rs:131-217 | the same bounds for every burst of every run among operator calls |
| Supervisor.LatchHolds | apps/snx-edge-server/src/supervisor.rs:177-215 | between a give-up and the next attempt lies an API connect or a status read as connected |
| Supervisor.ReadStarts | apps/snx-edge-server/src/supervisor.rs:177-215 | a status read while resting starts a burst iff it is an error or disconnected, a profile is desired and the latch is open; read as connected it opens the latch |
| Supervisor.AttemptGoesOn | apps/snx-edge-server/src/supervisor.rs:234-271 | a burst goes on after an attempt iff that ended in an error or disconnected and was not the tenth, and latches iff it was |
| Supervisor.RearmedDials | apps/snx-edge-server/src/api/tunnel.rs:42-47 | after any move that leaves it resting, a drop starts a burst iff a profile is desired by then and the latch was open or the move re-arms |
| Supervisor.ShutdownIsFinal | apps/snx-edge-server/src/supervisor.rs:177-215 | nothing is dialled after a shutdown |
| Supervisor.DisconnectSilences | apps/snx-edge-server/src/api/tunnel.rs:70-74 | after an operator's disconnect an attempt without a new connect is possible iff a burst was under way |
| Permissions.AdminMayDoAll | apps/snx-edge-server/src/db.rs:727-760 | whatever any role may do, an admin may |
| Permissions.ViewerOverOperator | apps/snx-edge-server/src/db.rs:727-760 | for every permission: a viewer may and an operator may not iff it is `routing.read` |
| Permissions.OnlyAdminsManageUsers | apps/snx-edge-server/src/api/auth.rs:385-396 | any `users.` action is granted iff the role is admin |
| AuthProofs.FirstStart | apps/snx-edge-server/src/db.rs:208-238 | the store after the first start satisfies the invariant |
| AuthProofs.RunKeeps | apps/snx-edge-server/src/api/auth.rs:226-382 | over every run: cache entries equal the database, tokens at the current generation carry the current role of an enabled user, an admin remains, generations never fall, identifiers are never reused |
| Revocation.CacheIsTransparent | apps/snx-edge-server/src/api/auth.rs:356-382 | the cached check accepts iff the database would |
| Revocation.AcceptedIsCurrent | apps/snx-edge-server/src/api/auth.rs:315-347 | whoever is let in is enabled and holds exactly the token's role and permissions |
| Revocation.RefusedForGood | apps/snx-edge-server/src/api/auth.rs:315-347 | a token refused once is refused in every later state |
| Revocation.RevokedExactlyBy | apps/snx-edge-server/src/db.rs:322-442 | a user's generation moves, or the user goes, in exactly the listed allowed requests |
| Revocation.RevokedForGood | apps/snx-edge-server/src/api/users.rs:115-152 | after such a request no earlier token of that user is ever accepted again |
| Revocation.OnlyAdminsChangeAccounts | apps/snx-edge-server/src/api/users.rs:65-154 | accounts, roles and enabled flags change only at the request of a currently enabled admin |
| Authority.DoneWhen | apps/snx-edge-server/src/api/users.rs:65-310 | after every run, with the check enforced: a request is carried out iff its token is accepted and its user, as the database has it, is entitled: an enabled admin, or for one's own password whoever gives the current one |
| Authority.RefusedWhen | apps/snx-edge-server/src/api/users.rs:65-310 | exactly when a request is unauthorized, forbidden, or a conflict |
| Authority.PasswordIsOnesOwn | apps/snx-edge-server/src/api/users.rs:156-198 | a password changes only at the hands of its owner with the current one, or of an enabled admin who is somebody else |
| Authority.EndedBySelfOrAdmin | apps/snx-edge-server/src/api/users.rs:98-310 | a user's tokens are revoked, and a session ends, only by the user's own request or an enabled admin's, the session's own renewal, or running out |
| Authority.RowUpdatedWhen | apps/snx-edge-server/src/db.rs:322-386 | a row is changed iff it exists and the change does not demote or disable an administrator with no other enabled one; which error otherwise |
| Authority.RowDeletedWhen | apps/snx-edge-server/src/db.rs:388-416 | a row is deleted iff it exists and is not an administrator's with no other enabled one; which error otherwise |
| Authority.RequestDoes | apps/snx-edge-server/src/api/users.rs:65-310 | a request carried out has exactly its effect on accounts and sessions, any other none |
| Authority.EndedSessionNeverRenews | apps/snx-edge-server/src/api/users.rs:258-282 | after a session is revoked nobody ever renews with it |
| Authority.SignInWhen | apps/snx-edge-server/src/api/auth.rs:61-103 | a sign-in succeeds iff the user is enabled, not locked and the password right; what it does to the failure count and the lock in every case |
| Authority.SuccessGrants | apps/snx-edge-server/src/api/auth.rs:226-293 | a successful sign-in or renewal hands out an access token that is let in and true, and a refresh token that renews for exactly its lifetime |
| Revocation.AnAdminRemains | apps/snx-edge-server/src/db.rs:345-416 | every run keeps an enabled admin and leaves no session without its user |
| Revocation.RenewedOnce | apps/snx-edge-server/src/api/auth.rs:184-221 | request by request, a refresh token renews at most once, whatever happens in between |
| IssueRace.BothRenewWhen | apps/snx-edge-server/src/api/auth.rs:190-196 | interleaved, two renewals with one refresh token both get past the session check iff nothing has removed the session when the second checks |
| IssueRace.AtOnceRenewsOnce | apps/snx-edge-server/src/api/auth.rs:190-196 | a renewal that deletes its session before anyone moves is the only one |
| IssueRace.LivesWhile | apps/snx-edge-server/src/db.rs:610-614 | a session is there until first removed and does not come back |
| IssueRace.RemovedForGood | apps/snx-edge-server/src/db.rs:388-416 | a deleted user keeps and gets no session and no token, whatever was under way |
| IssueRace.RenewedTwice | apps/snx-edge-server/src/api/auth.rs:178-222 | a run in which one refresh token yields two pairs of tokens and two sessions |
| IssueRace.OutdatedWhen | apps/snx-edge-server/src/api/auth.rs:226-293 | tokens are let in without being true iff the generation is still the one they were signed with and the role was changed between reading and signing, or the user disabled and not enabled since |
| IssueRace.UndisturbedIsTrue | apps/snx-edge-server/src/api/auth.rs:226-293 | a request during which the generation stayed hands out tokens that are never let in without being true |
| IssueRace.DemotedStaysAdmin | apps/snx-edge-server/src/api/auth.rs:61-128 | a run in which an administrator demoted during the password check is handed working tokens of an administrator |
| IssueRace.LateSessionRenews | apps/snx-edge-server/src/api/users.rs:186-193 | a run in which a sign-in with the old password renews after the password change |
| Revocation.RenewalSucceedsWhen | apps/snx-edge-server/src/api/auth.rs:184-221 | exactly when a renewal succeeds; it never fails on a missing user |
| Revocation.PasswordChangeEndsRenewal | apps/snx-edge-server/src/api/users.rs:156-247 | after an allowed password change no earlier refresh token ever renews |
| Revocation.RevokeLeavesRenewal | apps/snx-edge-server/src/api/users.rs:284-310 | explicit revocation changes no renewal's outcome, and the new tokens are let in |
| Lockout.GuessingTakesTime | apps/snx-edge-server/src/api/auth.rs:67-103 | n failed comparisons without a success span at least ((n - 1) div allowed) lock durations |
| Lockout.LockHolds | apps/snx-edge-server/src/api/auth.rs:67-78 | request by request, until a lock runs out, after any other requests, every sign-in of the user is refused and changes nothing |
| Lockout.LockEndsWhen | apps/snx-edge-server/src/api/auth.rs:67-103 | after any requests but the user's own sign-ins, the right password gets an enabled user in iff the lock's time has passed |
| LockRace.BreachedWhen | apps/snx-edge-server/src/api/auth.rs:67-78 | a lock in force fails to hold, without a success, iff a sign-in that read an expired lock before is still to reset it |
| LockRace.FreshLockLifted | apps/snx-edge-server/src/db.rs:575-582 | a run in which a lock just set is lifted by such a reset |
| LockRace.AloneLikeLogin | apps/snx-edge-server/src/api/auth.rs:67-103 | the steps of one uninterrupted sign-in leave the record an undivided one leaves |
| LockRace.OneDuration | apps/snx-edge-server/src/api/auth.rs:67-103 | within one lock duration, starting without a lock or a reset under way and with any number of failing sign-ins at once, a lock once set holds, and no more are compared than that allowance |
| LockRace.OneAllowance | apps/snx-edge-server/src/api/auth.rs:67-103 | between two resets, with any number of sign-ins at once, at most the failures left before the lock, one less than the sign-ins, and those dropped half-way are compared |
| Revocation.CleanupRevokesNothing | apps/snx-edge-server/src/db.rs:672-689 | clean-up removes no session that a renewal would accept now or later, and leaves none whose time is over |
| CacheRace.RevokedWithin | apps/snx-edge-server/src/api/auth.rs:305-313 | over every interleaving of lookups, revocations and failures, nobody is let in with a generation superseded 30 s plus the write's lag ago or more |
| CacheRace.LetInAgainWhen | apps/snx-edge-server/src/api/auth.rs:356-382 | a superseded generation can be let in again iff the cache still serves it or a request under way still holds it |
| CacheRace.AloneLandsAtOnce | apps/snx-edge-server/src/api/users.rs:123-132 | a revocation with nothing else under way is final at once |
| CacheRace.DroppedAndEvicted | apps/snx-edge-server/src/api/auth.rs:356-382 | with nothing else under way, a request dropped half-way and an evicted entry let nobody in again |
| CacheRace.RevocationUndone | apps/snx-edge-server/src/state.rs:152-172 | a run in which a late cache write brings a completely revoked token back |
| AuthServer.AuthServer.constructor | apps/snx-edge-server/src/db.rs:208-238 | a first start has one enabled admin and satisfies the invariant |
| AuthServer.AuthServer.UpdateRow | apps/snx-edge-server/src/db.rs:322-386 | refuses to lose the last admin; raises the generation iff privileges change |
| AuthServer.AuthServer.DeleteRow | apps/snx-edge-server/src/db.rs:388-416 | deletes the user with the user's sessions unless it is the last admin |
| AuthServer.AuthServer.BumpTokenGeneration | apps/snx-edge-server/src/db.rs:427-442 | raises the generation of an existing user and returns it |
| AuthServer.AuthServer.RecordFailedLogin | apps/snx-edge-server/src/db.rs:543-573 | counts, and locks at the configured number |
| AuthServer.AuthServer.ResetFailedLogins | apps/snx-edge-server/src/db.rs:575-582 | clears count and lock |
| AuthServer.AuthServer.RefreshCache | apps/snx-edge-server/src/state.rs:156-172 | writes or evicts one cache entry |
| AuthServer.AuthServer.IssueTokens | apps/snx-edge-server/src/api/auth.rs:226-293 | two signed tokens at the current role and generation, and a session for the refresh token |
| AuthServer.AuthServer.Login | apps/snx-edge-server/src/api/auth.rs:55-131 | the whole state and reply, branch by branch; succeeds iff enabled, not locked and right, and then clears the failures; keeps the invariant |
| AuthServer.AuthServer.Refresh | apps/snx-edge-server/src/api/auth.rs:178-222 | consumes the session before looking at the user; succeeds iff token, session and user are good; keeps the invariant |
| AuthServer.AuthServer.LookupTokenGeneration | apps/snx-edge-server/src/api/auth.rs:356-382 | a cache hit within 30 s, else the database; either way the database's generation |
| AuthServer.AuthServer.RequireAuth | apps/snx-edge-server/src/api/auth.rs:315-347 | lets in iff the database would, and with the check enforced only enabled users with exactly the token's rights |
| AuthServer.AuthServer.CreateUser | apps/snx-edge-server/src/api/users.rs:65-86 | permission, role and level checks, then a new row |
| AuthServer.AuthServer.UpdateUser | apps/snx-edge-server/src/api/users.rs:98-135 | checks, the row change, then the cache |
| AuthServer.AuthServer.DeleteUser | apps/snx-edge-server/src/api/users.rs:137-154 | not oneself; row, sessions and cache entry go |
| AuthServer.AuthServer.ChangePassword | apps/snx-edge-server/src/db.rs:510-539 | generation, sessions and cache in that order |
| AuthServer.AuthServer.ChangeMyPassword | apps/snx-edge-server/src/api/users.rs:208-247 | requires the current password |
| AuthServer.AuthServer.ChangeUserPassword | apps/snx-edge-server/src/api/users.rs:156-198 | one's own with the current password, others' only as admin, and forbidden otherwise with nothing changed |
| AuthServer.AuthServer.RevokeSession | apps/snx-edge-server/src/api/users.rs:258-282 | drops the session and revokes its owner |
| AuthServer.AuthServer.RevokeUserTokens | apps/snx-edge-server/src/api/users.rs:288-310 | admin only; raises the generation and shows it to the cache |
| AuthServer.AuthServer.Dispatch | apps/snx-edge-server/src/api/users.rs:65-310 | the handler of each request |
| AuthServer.AuthServer.Handle | apps/snx-edge-server/src/api/auth.rs:315-347 | middleware, then the handler; carried out iff accepted and entitled, with exactly its effect; an admin and an exact cache remain; only an enabled admin changes who has what account; a user is revoked iff the request names that user |
| ClientRefresh.RunKeeps | apps/snx-edge-client/src/api.rs:52-158 | mutual exclusion, fresh tokens and the session chain over every interleaving |
| ClientRefresh.NoTokenSpentTwice | apps/snx-edge-client/src/api.rs:138-158 | over every run the server carries out at most one exchange for any access token found stale, lost answers included |
| ClientRefresh.PresentsLiveSessions | apps/snx-edge-client/src/api.rs:138-158 | a presented refresh token, and the stored one while the lock is free, is live iff no answer was lost and nothing revoked |
| ClientRefresh.OneExchangeAtATime | apps/snx-edge-client/src/api.rs:25-28 | two tasks are never past the lock together |
| ClientRefresh.BrokenForGood | apps/snx-edge-client/src/api.rs:218-240 | once an answer was lost or the login revoked, and none is in hand, the access token never changes again |
| ClientRefresh.RefusesOneSpendsAnother | apps/snx-edge-client/src/api.rs:53-64 | a complete run in which a token that was never refused is exchanged away |
| ClientRefresh.SpendsRefusedWhen | apps/snx-edge-client/src/api.rs:53-158 | a task about to exchange spends the token its refused request carried iff no renewal was stored between building and sending that request |
| ClientRefresh.TokenAges | apps/snx-edge-client/src/api.rs:138-158 | the token in use is the same at two moments iff no store lies between |
| ClientProgress.RunsAreBounded | apps/snx-edge-client/src/api.rs:52-158 | every run has at most nine moves for each request built |
| ClientProgress.AllCanFinish | apps/snx-edge-client/src/api.rs:52-158 | from any point of any run all tasks can finish without a new request, and the lock ends free: no deadlock |
| ClientProgress.RevokedStaysDead | apps/snx-edge-server/src/api/auth.rs:184-221 | a revoked session is never live again and nobody presenting it is given a token |
| ClientRefresh.RenewsAlone | apps/snx-edge-client/src/api.rs:138-158 | one task from lock to unlock replaces token, refresh token and session |
| ClientRefresh.ApiClient.RenewAccessToken | apps/snx-edge-client/src/api.rs:138-158 | returns the token in use or nothing; refresh token and persisted copy change together |
| ClientRefresh.RenewLikeProtocol | apps/snx-edge-client/src/api.rs:138-158 | that call ends in the protocol's cells |
| LogBuffer.LogBuffer.Push | apps/snx-edge-server/src/api/logs.rs:46-54 | appends to the history and keeps the ring's layout, across the wrap |
| LogBuffer.LogBuffer.LastEntries | apps/snx-edge-server/src/api/logs.rs:57-73 | exactly the last min(n, capacity, pushes) entries of the history, in order |
| LogBuffer.PlaceOne | apps/snx-edge-server/src/api/logs.rs:46-54 | writing slot `pushes mod capacity` keeps every newer entry in its slot |
| ProfileSecrets.Document.EncryptProfileSecrets | apps/snx-edge-server/src/db_secrets.rs:40-90 | the loop edits exactly the non-empty secret strings and sets the marker iff a secret is sealed |
| ProfileSecrets.Document.DecryptProfileSecrets | apps/snx-edge-server/src/db_secrets.rs:96-145 | opens every sealed secret and drops the marker, or fails iff one does not open |
| ProfileSecrets.Document.MaskSecrets | apps/snx-edge-server/src/api/profiles.rs:56-68 | masks exactly the non-empty secret strings |
| ProfileSecrets.Document.KeepSecrets | apps/snx-edge-server/src/api/profiles.rs:179-200 | masked secrets take their current value where there is one |
| ProfileRoundTrip.StoredReadsBack | apps/snx-edge-server/src/db.rs:775-852 | a stored configuration reads back unchanged iff it has no marker and, with a key, no secret of the sealed form |
| ProfileRoundTrip.MaskedMergesBack | apps/snx-edge-server/src/api/profiles.rs:179-200 | the masked answer merges into the current configuration itself, for every configuration |
| ProfileRoundTrip.GetPutGet | apps/snx-edge-server/src/db.rs:965-1030 | read, write back masked, read again: the original |
| ProfileRoundTrip.EncryptTwice | apps/snx-edge-server/src/db_secrets.rs:34-39 | encryption is idempotent whatever nonces are drawn |
| ProfileRoundTrip.NothingStoredPlain | apps/snx-edge-server/src/db_secrets.rs:40-90 | no non-empty secret string is stored, all other fields are kept |
| ProfileRoundTrip.MaskRevealsNothing | apps/snx-edge-server/src/api/profiles.rs:56-68 | two configurations show the same iff they differ at most in the texts of their secrets |
| KeyDecoding.HexDecode | apps/snx-edge-server/src/db_secrets.rs:188-200 | returns the bytes the string spells in either case, or nothing iff it spells none |
| KeyDecoding.HexIsUnique | apps/snx-edge-server/src/db_secrets.rs:188-209 | a string spells at most one byte sequence |
| KeyDecoding.Base64Inverts | apps/snx-edge-server/src/db_secrets.rs:166-168 | strict base64 decoding accepts exactly the encoder's output and inverts it |
| KeyDecoding.DecodeKey | apps/snx-edge-server/src/db_secrets.rs:158-186 | a 32-byte key is accepted iff the trimmed value is its hexadecimal or base64 form; neither iff it spells no bytes; none comes from the last fallback |
| KeyDecoding.LastResortFails | apps/snx-edge-server/src/db_secrets.rs:167-181 | hexadecimal that is neither 64 digits nor base64 never has 32 bytes |
| KeyDecoding.EncodersAreRead | apps/snx-edge-server/src/db_secrets.rs:158-186 | trimming leaves both encoders' output alone |
| SplitDns.LabelsDecide | apps/snx-edge-server/src/reconciler.rs:81-106 | the label rules alone decide, and a valid name has only letters, digits, hyphens and dots |
| SplitDns.Render | apps/snx-edge-server/src/reconciler.rs:124-143 | the nested loops write the domain-major product of valid domains and servers |
| SplitDns.ProductAt | apps/snx-edge-server/src/reconciler.rs:124-143 | entry i * servers + j of the product is domain i with server j |
| SplitDns.FileReadsBack | apps/snx-edge-server/src/reconciler.rs:108-143 | reading the file back line by line gives exactly that product |
| DnsNames.ValidWhen | apps/snx-edge-server/src/reconciler.rs:81-106 | the name check, character by character: letters, digits, hyphens and dots, at most 253, letters or digits at both ends and around every dot, and no 64 characters without a dot |
| DnsNames.NameGoesTo | apps/snx-edge-server/src/reconciler.rs:124-143 | the file sends a name to a server iff both were sent, the name with or without a tilde, and both are valid |
| SplitDns.Dropped | apps/snx-edge-server/src/reconciler.rs:194-208 | the drop count is all pairs less the valid ones, never negative |

## Left out

- Convergence.Converges: runs start from a store without step-kind objects and use one container address; what an address that changed does is `FailClosed.RouteToContainerWhen`.
- Provisioner.Provisioner.EnsureKind: the ten `ensure_*` steps are one loop over targets, since they differ only in the targets and the existence check; the object list is one sequence tagged by path instead of six lists.
- FailClosed.FailsClosed: RouterOS route lookup (table by mark, smallest distance, gateway check, blackhole, fall-through to main) is written out from RouterOS behaviour; routing rules other than marks are not modelled.
- Packets.PacketsAfterSetup: so are the firewall chains (matchers, passthrough, first match); a packet is known by the address lists and connection state it falls under, and interfaces are not modelled.
- Reconciler.Agreement: a failing edit does nothing, so a clean-up that removes some rules and fails on others, and one carried out with its answer lost, are not modelled; the router client is configured throughout or not at all; setup and teardown, which also write the default route, are not part of these runs.
- DataPlane.DataPlane.CleanupManaged: iptables is a list of rules that are listed and deleted by value; how it quotes a listed comment, on which deleting a line split at blanks depends, is not modelled.
- TunnelManager.TunnelManager.HandleEvent: aborting a task ends it at once; the check for a disconnect in progress is therefore never needed in a valid manager.
- TunnelManager.TunnelManager.StartTunnelTasks: the write of `Connecting` after spawning the handler is one step with the spawn; connect, challenge and disconnect do not interleave with each other.
- Supervisor.BurstsAreBounded: reading the status and the desired profile is one step; status events come or do not come, so a lost one is one that does not.
- Rollback.RollbackTakesEntry: the router's own limits on a comment's length or characters are not modelled.
- AuthProofs.RunKeeps: a request, with its middleware, is one step. What concurrent requests make of the cache, of token issue and of the lock is `CacheRace`, `IssueRace` and `LockRace`, each for one user and apart from the others; in `CacheRace` a deletion is a bump followed by an eviction. Database errors occur only there, as requests that stop half-way.
- Lockout.GuessingTakesTime: counts sign-ins request by request; among concurrent sign-ins `LockRace.OneAllowance` bounds the comparisons between two resets, and `LockRace.OneDuration` those of one lock duration that starts without a lock or a reset under way.
- Revocation.AcceptedIsCurrent: JWT signatures are membership in the set of signed tokens, and access-token expiry (which only refuses more) is not modelled.
- AuthServer.AuthServer.Login: users are addressed by id, the lookup by name and the check for a taken name are inputs; bcrypt verdicts are inputs, and the silent re-hash is not modelled.
- ClientRefresh.RunKeeps: login, logout, server switching and the start-up refresh, which write the same cells without the lock, are not modelled; the server's exchange is one step and always returns a rotated token.
- ProfileRoundTrip.StoredReadsBack: the cipher is an abstract pair of functions with opening as the inverse of sealing; JSON text is not modelled, only JSON values; the no-certificate-check policy gate on updates is not modelled.
- SplitDns.FileReadsBack: the standard library's address parser is a predicate assumed to accept no text with a slash or line break.
- KeyDecoding.DecodeKey: the digit test and the decode of the first branch share one pass.
- Router ids are numbers with their hexadecimal form; comments and attributes are strings.
- Schema migrations, client-address extraction and CIDR matching, certificate upload, profile import and export, health, diagnostics, and the address-list handlers beyond the comments they write.
- HTTP, TLS, server-sent events, CORS, rate limiting, configuration files, the command-line tool and the desktop interface.
- The VPN library, iptables, dnsmasq and signal delivery, beyond the outcomes and the rule list they stand for.
- Termination of background loops and fairness of interleavings.
