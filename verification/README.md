# Scantrace: a verified model

Scantrace watches a home network. A syslog listener turns firewall DROP lines into events and cases,
rolls bursts of cases up and alerts an analyst; a correlator clusters all events by source, scores the
clusters and opens cases by rule; slash commands let the analyst review cases and export blocklists.
This project models the parts of it with the most state and proves what they guarantee over every run.

`dafny verify dfyconfig.toml` checks everything.

## What is modelled

**The listener** (`SyslogMachine` to `SyslogService`). The ingest goroutine and the flush goroutine are
two program counters over one state: event table, case table, case index, burst buffer and the alerts
issued. A `Step` is one statement of one goroutine that touches that state, with a flag saying whether its
database statement succeeds, and a schedule is any sequence of steps, so the theorems about `After(steps)`
hold for every interleaving and every pattern of store failures. (A flush that deletes a row between the
read and the write of an ingest is therefore covered.) A buffered case is a frozen copy with one event,
because appends go to a copy read back from the table. `SyslogService` has the code itself as classes with
mutable fields; its methods are proved to do what an uninterrupted schedule of the machine does
(`SyslogCalls`), so `Listen` inherits every theorem. `SyslogRecords` says what is stored of each line,
`SyslogIndex` what the case index can and cannot find, `SyslogWitness` has runs at the thresholds and those
that lose events or index entries, and `SyslogRestart` shows what a listener does over tables that are not
empty and what a restart costs.

**The alert channel and the buffer's mutex** (`AlertSemaphore`, `BurstLock`) are interleaving machines for
any number of goroutines. `SyslogConcurrency` puts both into the listener, statement by statement, and proves
that every interleaving is simulated by a schedule of the machine, whose buffer operations are atomic.

**The blocklist builder** (`Blocklist`, `BlocklistOrder`, `BlocklistTheorems`, `BlocklistRanking`,
`BlocklistIpv4`), **the correlator** (`Clusters`, `ClusterTheorems`, `Scoring`, `Rules`, `Correlator`,
`CorrelatorTheorems`, `CrossRun`), **the review filters and flags** (`Review`, `Flags`, `FlagsTheorems`,
`FlagsMeaning`), **command splitting** (`SplitArgs`) and **IPv4 addresses as text and as bits** (`Ipv4`,
`Ipv4Theorems`; private ranges as in section 3 of RFC 1918, prefixes as in section 3.1 of RFC 4632)
follow the same pattern: a method in the source's own imperative form, proved equal to a specification
function, theorems about that function, and theorems that say what it gives in terms of the inputs alone.

## Where the code differs from its comments

- The header of `scantrace-agent/internal/syslog/syslog.go` (39-44) says that no events are orphaned. They
  can be, and `SyslogAccounting.Lost` names every cause: a new case that could not be inserted, an indexed
  case that could not be read (the line is then ingested again, with a second event row), an append that
  could not be written or hit a deleted row, and events appended to a stub that was merged without them.
  `OrphansExact` proves the list complete; `CallAccounting` says exactly what remains without failures and
  races: one event for each line ingested again, and those appended to a stub before it was merged.
  `EventOvertaken` and `LineRecovered` give runs with both kinds, `OrphansExist` one with concrete lines.
- The case index keeps pointing at stubs that a flush has deleted, and points at a case that could not be
  inserted. `StaleExact` shows that those are exactly the stale entries; `EventOvertaken` and `StaleAtOnce`
  reach one of each kind. It can also miss an open case, so that a second one opens for the same key, but only
  after a failed read: `IndexedExact`, `OneOpenCase` and, for a run that does, `SecondCase`.
- The correlator's de-duplication across runs never applies. The cases table has columns for rule type and
  source, but the statements that write and read cases name neither (`internal/db/db.go`, 630-645 and
  734-757): `SecondRunRepeats` shows that a second run opens every case again, `ScannerGetsTwoCases` gives a
  source, and `IntendedDedupe` says what the de-duplication would do if the two fields were kept.
- The threshold of the external-scan rule has no effect (`internal/correlator/rules.go`, 277-282): the
  contract of `EvalExternalScan` does not mention it.
- A blocklist group's last-seen time starts at the zero time, so it is the latest time of the group if and
  only if that is not before the zero time: `CidrLastSeen`, with `LastSeenTooLate` for the other case.
- The two `isExternal` functions disagree on `0.0.0.0`, and on no other dotted quad: `ExternalAgrees`.

## Model

| member | source | states |
|---|---|---|
| SyslogPreservation.NextKeeps | scantrace-agent/internal/syslog/syslog.go:414-666 | every statement of either goroutine, successful or failed, keeps the invariant: the index is injective and a row it reaches holds 1 to 49 events, all stored under the entry's (subnet, port); DROP rows hold at most 50 events and are closed exactly at 50; every buffered stub is a low or medium unalerted case with one event; bursts own one event per merged stub; high cases are alerted |
| SyslogPreservation.AlwaysInv | scantrace-agent/internal/syslog/syslog.go:414-666 | that invariant holds after every schedule from the empty database, store failures and races included |
| SyslogPreservation.MergedSeverityByPort | scantrace-agent/internal/syslog/syslog.go:169-209 | a burst of low and medium stubs rates "medium" if and only if one of them hit a medium port, else "info" |
| SyslogAccounting.RunEvolves | scantrace-agent/internal/syslog/syslog.go:446-654 | between any two moments of any schedule no event row is lost or changed; surviving cases keep kind and severity and only gain events; closed cases and bursts do not change; no case that is high, a burst or alerted disappears; ids are not reused and no alert is withdrawn |
| SyslogAccounting.FullCaseIsFinal | scantrace-agent/internal/syslog/syslog.go:500-511 | a case at the 50-event cap holds exactly 50, is closed, is out of the index, and stays so, unchanged, as long as it exists |
| SyslogAccounting.NextOrphans | scantrace-agent/internal/syslog/syslog.go:446-654 | a step orphans exactly the events of its `Lost` set, and none of them was orphaned before |
| SyslogAccounting.OrphansExact | scantrace-agent/internal/syslog/syslog.go:446-654 | after any schedule the events that no case owns and no ingest is placing are exactly those lost by some step |
| SyslogAccounting.LostOnce | scantrace-agent/internal/syslog/syslog.go:446-654 | no event is lost twice |
| SyslogRecords.EventsExact | scantrace-agent/internal/syslog/syslog.go:420-447 | after any schedule the event table holds exactly the lines accepted, once when received and once more when ingested again after a stale entry, each with its addresses, ports, protocol and raw text and the type "wan_new_connection" if and only if its interface is empty or begins with "eth" or "wan", else "wan_forward" |
| SyslogRecords.PendingLine | scantrace-agent/internal/syslog/syslog.go:491-495 | an ingest works on the line last received, also when it starts over |
| SyslogRecords.CasesRated | scantrace-agent/internal/syslog/syslog.go:124-199 | every event of a DROP case came from one subnet at one port below 32768, and the case's severity is high for a sensitive port, medium for a port in use, else low |
| SyslogRecords.SomeServices | scantrace-agent/internal/syslog/syslog.go:124-199 | remote shells and desktops are high, the web is medium, ports without a service are low, and port 32768 is the first that is not rated |
| SyslogRecords.AlwaysTrue | scantrace-agent/internal/syslog/syslog.go:484-487 | a buffered case carries the source, protocol and port of its event's row |
| SyslogConservation.AppendsExact | scantrace-agent/internal/syslog/syslog.go:497-515 | a DROP case's row holds its first event and exactly the events that appends wrote to it |
| SyslogConservation.WaitingStubExact | scantrace-agent/internal/syslog/syslog.go:481-515 | what deleting a waiting stub's row would orphan is exactly what was appended to the case since it was buffered |
| SyslogConservation.DoubledExact | scantrace-agent/internal/syslog/syslog.go:639-654 | the events owned twice for good are exactly the first events of merged stubs whose deletion failed |
| SyslogConservation.SharedExact | scantrace-agent/internal/syslog/syslog.go:639-654 | two cases own an event only while its stub is being merged, or after such a failed deletion |
| SyslogAlerts.CasesConserved | scantrace-agent/internal/syslog/syslog.go:467-654 | after any schedule every low or medium case ever inserted is in exactly one place: alerted one by one, merged, buffered, held by a flush, or about to be buffered, also when a burst insert fails |
| SyslogAlerts.CasesCounted | scantrace-agent/internal/syslog/syslog.go:467-654 | the same as an equation between counts |
| SyslogAlerts.AlertedOnce | scantrace-agent/internal/syslog/syslog.go:479-487 | no case is handed to the alerter twice; a high case is alerted by the end of the ingest that creates it; no stub waiting for a flush is high or has been alerted |
| SyslogAlerts.BurstRating | scantrace-agent/internal/syslog/syslog.go:606-637 | in any reachable state the burst about to be inserted rates "medium" if some stub hit a medium port, else "info" |
| SyslogAlerts.BurstAlerted | scantrace-agent/internal/syslog/syslog.go:656-665 | once its flush is over a burst has been alerted if and only if it is not "info", and owns one event per merged stub |
| SyslogAlerts.RecoversOnce | scantrace-agent/internal/syslog/syslog.go:491-495 | a line ingested again after a stale entry cannot find another one: the recursion is one deep |
| SyslogIndex.StaleExact | scantrace-agent/internal/syslog/syslog.go:449-494 | after any schedule, whatever fails, an index entry has no row if and only if its case could not be inserted or its stub was deleted by a flush |
| SyslogAlerts.StaleWithoutFaults | scantrace-agent/internal/syslog/syslog.go:449-494 | without failures that is: its case was merged into a burst and is not still waiting for the flush to delete it |
| SyslogIndex.IndexedExact | scantrace-agent/internal/syslog/syslog.go:449-515 | after any schedule an open DROP case is in the index if and only if no read of it ever failed |
| SyslogIndex.OneOpenCase | scantrace-agent/internal/syslog/syslog.go:449-515 | two open DROP cases with events of one (subnet, port) are the same case, unless a read of one of them failed |
| SyslogAlerts.AtomicLosses | scantrace-agent/internal/syslog/syslog.go:446-654 | with calls that do not interleave and do not fail, a step loses exactly the event of a line that finds a merged and deleted case's index entry, or the events appended to a stub while it waited |
| SyslogAlerts.AtomicOrphans | scantrace-agent/internal/syslog/syslog.go:446-654 | so after any such schedule the events without a case are exactly those appended to a stub between its buffering and its merging, and one for each line that found such an entry |
| SyslogAlerts.OneOwner | scantrace-agent/internal/syslog/syslog.go:639-654 | without failures, in any interleaving, an event has two owners if and only if its stub is being merged |
| SyslogCalls.CallAccounting | scantrace-agent/internal/syslog/syslog.go:414-666 | after any sequence of calls that do not fail no event has two owners, and the events without one are exactly the two kinds above |
| SyslogWitness.EventOvertaken | scantrace-agent/internal/syslog/syslog.go:446-654 | for any three buffered lines with distinct keys, the calls x, y, z, x and a flush, none failing, leave the second event of x without a case and its index entry without a row |
| SyslogWitness.LineRecovered | scantrace-agent/internal/syslog/syslog.go:491-495 | one more line x after that is stored twice and its first event has no case |
| SyslogWitness.OrphansExist | scantrace-agent/internal/syslog/syslog.go:39-44 | so the header's claim fails: a concrete run without failures that orphans an event |
| SyslogWitness.SecondCase | scantrace-agent/internal/syslog/syslog.go:491-495 | a concrete shape of run in which one failed read leaves two open cases of one key |
| SyslogWitness.StaleAtOnce | scantrace-agent/internal/syslog/syslog.go:451-475 | a failed insert leaves an index entry that is stale at once |
| SyslogWitness.PairAlerted | scantrace-agent/internal/syslog/syslog.go:544-549 | two buffered cases are alerted one by one in order and both keep their rows |
| SyslogWitness.FailedMerge | scantrace-agent/internal/syslog/syslog.go:639-645 | when the burst cannot be inserted, three buffered cases are alerted one by one by the fallback and keep their rows |
| SyslogWitness.CaseGrows | scantrace-agent/internal/syslog/syslog.go:497-515 | the first forty-nine lines of one key make one open case with all their events |
| SyslogWitness.CaseFills | scantrace-agent/internal/syslog/syslog.go:500-511 | the fiftieth closes it and takes it out of the index, and the next one opens another |
| SyslogRestart.OldRowsAside | scantrace-agent/internal/syslog/syslog.go:314-330 | over any tables a listener does exactly what it does over empty ones, beside the rows that were there: every theorem about schedules from the empty database holds for its own rows |
| SyslogRestart.LeavesSome | scantrace-agent/internal/syslog/syslog.go:325-334 | every state leaves tables that a successor can start over, so the two theorems below speak of every stop |
| SyslogRestart.RestartForgets | scantrace-agent/internal/syslog/syslog.go:325-334 | whenever a listener stops, its successor never changes, deletes, extends, indexes, merges or alerts any case it left, so buffered or just inserted ones are forgotten |
| SyslogRestart.RestartOrphans | scantrace-agent/internal/syslog/syslog.go:325-334 | the events that a restart leaves without a case are those orphaned before and the one of the interrupted ingest, for good |
| SyslogCalls.IngestIsSchedule | scantrace-agent/internal/syslog/syslog.go:414-523 | an uninterrupted ingest, recovery included, is six steps of the machine |
| SyslogCalls.FlushIsSchedule | scantrace-agent/internal/syslog/syslog.go:533-666 | an uninterrupted flush of any number of cases, under any failures, is a schedule of the machine |
| SyslogCalls.ScheduleIsAtomic | scantrace-agent/internal/syslog/syslog.go:314-370 | calls made one at a time form a schedule without interleaving that ends between calls |
| SyslogService.Listener.Ingest | scantrace-agent/internal/syslog/syslog.go:414-523 | the method changes tables, index, buffer, alerts and id supply as `IngestEffect` says, and its recovery recursion terminates |
| SyslogService.Listener.Append | scantrace-agent/internal/syslog/syslog.go:497-515 | an append reaches the table only if the row still exists, and the index entry goes only if a full row was written |
| SyslogService.Listener.Collect | scantrace-agent/internal/syslog/syslog.go:552-581 | the merge loop gathers all event ids in order, the real ports, the highest severity and the stub ids |
| SyslogService.Listener.FlushBurst | scantrace-agent/internal/syslog/syslog.go:533-666 | the method drains the buffer and changes tables, alerts and id supply as `FlushEffect` says |
| SyslogService.Listener.Listen | scantrace-agent/internal/syslog/syslog.go:314-370 | over whatever the tables hold, and whatever packets and ticks arrive one at a time, the objects hold the state that the machine reaches by their schedule beside the old rows, and that state meets the invariant |
| SyslogService.Listener.constructor | scantrace-agent/internal/syslog/syslog.go:325-334 | a listener starts with an empty index and buffer over the tables it is given |
| SyslogService.BurstBuffer.Add | scantrace-agent/internal/syslog/syslog.go:296-300 | appends one item |
| SyslogService.BurstBuffer.Drain | scantrace-agent/internal/syslog/syslog.go:304-308 | returns all items and leaves none |
| Store.DB.InsertEvent | internal/db/db.go:294-320 | inserts a new id, does nothing on a known one |
| Store.DB.InsertCase | internal/db/db.go:623-647 | inserts a new id, does nothing on a known one |
| Store.DB.GetCase | internal/db/db.go:672-680 | a fresh object with the row's contents; null for a missing row or a failed read |
| Store.DB.UpdateCase | internal/db/db.go:650-669 | overwrites an existing row; a missing one stays missing without an error |
| Store.DB.DeleteCase | internal/db/db.go:725-728 | removes the row and no event |
| BurstLock.NothingLost | scantrace-agent/internal/syslog/syslog.go:289-308 | in every interleaving of adds and drains the drained batches followed by the buffer are the added items in order, at most one goroutine is inside the lock, and a drain returns the batch it took |
| BurstLock.Linearizable | scantrace-agent/internal/syslog/syslog.go:289-308 | every interleaving of the five steps of each operation leaves the buffer and the batches that the operations leave when done atomically, in the order of their writes |
| SyslogConcurrency.Simulated | scantrace-agent/internal/syslog/syslog.go:289-308 | the listener with its mutex spelled out, adding and draining in five steps each, is in every interleaving in a state that the machine reaches by a schedule, an operation taking effect when it writes the slice |
| SyslogConcurrency.Delivered | scantrace-agent/internal/syslog/syslog.go:267-275 | in every such run at most ten posts go through the channel at once, each case alerted individually or as a burst is posted at most once and no other case is, and all of them are, with no token left, once every goroutine is done |
| AlertSemaphore.Bounded | scantrace-agent/internal/syslog/syslog.go:267-275 | in every interleaving at most ten posts run, tokens equal running posts, each alert is posted once, and none leaks a token |
| AlertSemaphore.Progress | scantrace-agent/internal/syslog/syslog.go:267-275 | while an alert is unfinished some goroutine can move |
| Blocklist.FindLatest | scantrace-agent/internal/handler/cmd_export_blocklist.go:166-182 | the first loop finds each address's latest entry and the addresses in order of first sight |
| Blocklist.Group | scantrace-agent/internal/handler/cmd_export_blocklist.go:195-213 | the grouping loop gathers each prefix's members and their latest time, prefixes in order of first sight |
| Blocklist.BuildBlocklistLines | scantrace-agent/internal/handler/cmd_export_blocklist.go:164-256 | the result is the stably sorted and cut list of all lines |
| BlocklistOrder.StrictWeakOrder | scantrace-agent/internal/handler/cmd_export_blocklist.go:240-249 | the comparator is a strict weak order, as a stable sort requires |
| BlocklistOrder.StableSortCorrect | scantrace-agent/internal/handler/cmd_export_blocklist.go:240-249 | sorting ranks the lines, permutes them, and keeps lines of equal rank in build order |
| BlocklistOrder.StableSortUnique | scantrace-agent/internal/handler/cmd_export_blocklist.go:240-249 | a ranked list with the same lines of each rank in the same order is that result: any stable sort gives it |
| BlocklistTheorems.LinesExact | scantrace-agent/internal/handler/cmd_export_blocklist.go:164-237 | before the cut the lines are, without repetition, exactly those that describe the input: a CIDR line for each prefix shared by at least three distinct addresses when grouping, a single line for every other address, with the right count and last-seen time |
| BlocklistTheorems.Partition | scantrace-agent/internal/handler/cmd_export_blocklist.go:164-237 | each distinct non-empty address is covered by exactly one line, a CIDR line if and only if it is grouped |
| BlocklistTheorems.Conservation | scantrace-agent/internal/handler/cmd_export_blocklist.go:164-237 | the line counts add up to the number of distinct addresses |
| BlocklistTheorems.OrderIndependent | scantrace-agent/internal/handler/cmd_export_blocklist.go:164-237 | inputs with the same entries, in any order and with any repetition, give the same multiset of lines |
| BlocklistTheorems.CidrLastSeen | scantrace-agent/internal/handler/cmd_export_blocklist.go:209-211 | a CIDR line's last-seen is the latest time of all raw entries it covers if and only if that is not before the zero time |
| BlocklistTheorems.Ranking | scantrace-agent/internal/handler/cmd_export_blocklist.go:239-255 | the cut keeps the right number of lines; CIDR lines come before single ones, larger before smaller and more recent before less, among the lines kept and between those and the dropped ones; lines of equal rank keep build order |
| BlocklistRanking.CidrLinesShown | scantrace-agent/internal/handler/cmd_export_blocklist.go:164-237 | a CIDR line is built if and only if grouping is on and three or more distinct non-empty addresses have its prefix; it counts them and has the latest of their times or, if later, the zero time |
| BlocklistRanking.SingleLinesShown | scantrace-agent/internal/handler/cmd_export_blocklist.go:164-237 | a single line is built if and only if its address is observed, not empty and not grouped; its count is 1 and its time the latest of the address |
| BlocklistRanking.BuildOrder | scantrace-agent/internal/handler/cmd_export_blocklist.go:166-237 | lines of one kind are built in the order of the first entries they cover |
| BlocklistRanking.ResultOrder | scantrace-agent/internal/handler/cmd_export_blocklist.go:239-255 | the order of the result down to the last tie: kind, size, recency, first sight |
| BlocklistIpv4.CidrLineCovers | scantrace-agent/internal/handler/cmd_export_blocklist.go:144-216 | with IPv4 prefixes a CIDR line's value is a masked network, and it covers exactly the observed addresses whose top 24 bits are that network's |
| BlocklistIpv4.LastSeenTooLate | scantrace-agent/internal/handler/cmd_export_blocklist.go:209-211 | any network can get a CIDR line whose last-seen time is later than every entry |
| Clusters.Cluster | internal/correlator/correlator.go:219-244 | the loop leaves one cluster object per source that occurs, holding the summary of that source's events |
| ClusterTheorems.ClusterPartition | internal/correlator/correlator.go:219-244 | every event is in its source's cluster as often as in the input, and in no other |
| ClusterTheorems.TallyExact | internal/correlator/correlator.go:234-235 | a port's or protocol's count is the number of events with it, and only those that occur are listed |
| ClusterTheorems.CountsAddUp | internal/correlator/correlator.go:234-235 | port counts and protocol counts each add up to the number of events |
| ClusterTheorems.SizesAddUp | internal/correlator/correlator.go:219-244 | cluster sizes add up to the number of windowed events |
| ClusterTheorems.SummaryExact | internal/correlator/correlator.go:219-244 | a cluster's summary field by field: source, events, how often each port and protocol occurs, least and greatest time |
| ClusterTheorems.FirstLast | internal/correlator/correlator.go:236-241 | first and last seen are the least and greatest time of the cluster's events |
| ClusterTheorems.ClusterOrderIndependent | internal/correlator/correlator.go:219-244 | permuting the events changes nothing in a cluster but the order of its event list |
| Scoring.ScoreInRange | internal/correlator/correlator.go:89-116 | scores lie between 0 and 1 |
| Scoring.ScoreMonotone | internal/correlator/correlator.go:89-116 | more events and more ports never lower the score, also across the two formulas and both caps |
| Scoring.SeverityMonotone | internal/correlator/correlator.go:89-127 | nor the severity |
| Scoring.SeverityClosedForm | internal/correlator/correlator.go:89-127 | from three events on: two real ports give score 1 and high; one gives high from 6 events, else medium; none gives high from 15, medium from 5, else low |
| Scoring.ScoreClosedForm | internal/correlator/correlator.go:89-116 | the score itself: n/(n+5) below 20 events and 4/5 from there on without ports, else nd/(n+d+1) until that reaches 1 |
| Scoring.SmallClusters | internal/correlator/correlator.go:89-127 | the severity of clusters of at most two events |
| Rules.EvalExternalScan | internal/correlator/rules.go:244-295 | fires exactly on external sources with a scan event, whatever the port threshold |
| Rules.EvalRepeatedDrop | internal/correlator/rules.go:332-353 | fires exactly when the number of drop events reaches the threshold, 3 when it is 0 |
| Rules.VerdictDecides | internal/correlator/correlator.go:161-179 | the cascade's verdict is that of the first matching rule, or generic_scan when none matches |
| Rules.DecidesOnce | internal/correlator/correlator.go:161-179 | and no other verdict meets that description |
| Rules.ExternalVerdict | internal/correlator/rules.go:384-392 | under the default rules an external source is suppressed if and only if all its events go to an address ending in .1 or .254 on a common port and it is a known cloud's or, without a lookup, sent one event only; else it is inbound_scan if it has a scan event, else generic_scan; repeated_drop is always shadowed |
| Rules.InternalVerdict | internal/correlator/rules.go:384-392 | a source that is not external is port_scan, repeated_drop, new_device or generic_scan, and exactly when each |
| Rules.ProbeVerdicts | internal/correlator/rules.go:101-146 | one probe of a gateway's web port is suppressed from a cloud and without a lookup, and a scan from elsewhere or from an unknown source |
| Rules.ExternalTypes | internal/correlator/rules.go:222-295 | what three events of one type, named one by one, make of an external source |
| Rules.InternalTypes | internal/correlator/rules.go:332-376 | and of any other |
| Rules.ZeroThresholds | internal/correlator/rules.go:306-336 | a threshold of zero stands for 5 ports and 3 drops |
| Correlator.ComputeScore | internal/correlator/correlator.go:89-116 | the method returns the score function of event count and real port count |
| Correlator.Run | internal/correlator/correlator.go:133-197 | one run opens exactly one case, with the right verdict, score, severity and events, for each source whose cluster reaches the threshold and is not suppressed, duplicated or refused by the store, and no other, whatever order the clusters are visited in |
| CorrelatorTheorems.RecentExact | internal/correlator/correlator.go:133-145 | an event counts for its source if and only if it is younger than the window, as often as it is stored |
| CorrelatorTheorems.CaseExplained | internal/correlator/correlator.go:133-304 | every case of a run is about a source with enough young events, lists exactly their ids in order, dates from the earliest, has the verdict of the first matching rule, the score of their numbers and the severity of that score, and no open case of the last day with its source and rule type stands against it |
| CorrelatorTheorems.SourceExplained | internal/correlator/correlator.go:133-197 | a source gets a case if and only if it has enough young events, is not suppressed or refused, and no such open case exists |
| CorrelatorTheorems.OnlyYoungEventsCount | internal/correlator/correlator.go:139-145 | three scan events of one address make a case while they are younger than the window and none afterwards |
| Correlator.OneMoreEvent | internal/correlator/correlator.go:89-127 | adding any event to a cluster lowers neither its score nor its severity |
| Correlator.ExternalCases | internal/correlator/correlator.go:154-195 | a case opened for an external source under the default rules is inbound_scan if it has a scan event, else generic_scan |
| CrossRun.RowsNeverDuplicate | internal/db/db.go:623-757 | no row that is written and read back suppresses a case |
| CrossRun.SecondRunRepeats | internal/correlator/correlator.go:133-217 | a second run over the same events, with the first run's cases stored and read back, opens exactly the first run's cases again |
| CrossRun.IntendedDedupe | internal/correlator/correlator.go:202-217 | with rule type and source kept, a second run would repeat exactly the cases whose first event is before its cutoff |
| CrossRun.ScannerGetsTwoCases | internal/correlator/correlator.go:133-217 | a concrete source that gets a case in both of two consecutive runs under the default rules |
| Ipv4.ParseExact | internal/collector/syslog_server.go:60-64 | parsing accepts exactly the canonical dotted quads, and parsing and printing are inverse |
| Ipv4Theorems.SubnetIsCidrPrefix | scantrace-agent/internal/syslog/syslog.go:240-246 | for every dotted quad the listener's subnet text followed by ".0/24" is the blocklist's masked prefix |
| Ipv4Theorems.SameSubnet | scantrace-agent/internal/syslog/syslog.go:235-246 | two sources share a subnet text if and only if their top 24 bits agree |
| Ipv4Theorems.MaskLocal | internal/collector/syslog_server.go:42-71 | the mask test rejects exactly the private, loopback and link-local octet ranges |
| Ipv4Theorems.PrefixLocal | internal/correlator/rules.go:197-218 | the text-prefix test rejects exactly those and 0.0.0.0 |
| Ipv4Theorems.ExternalAgrees | internal/correlator/rules.go:197-218 | the two tests agree on a dotted quad if and only if it is not 0.0.0.0 |
| Review.DedupeCases | scantrace-agent/internal/handler/review_filters.go:333-357 | the method's maps and loops compute the specified survivors |
| Review.Survivors | scantrace-agent/internal/handler/review_filters.go:333-357 | de-duplication returns a subsequence in the original order, no two survivors with one key, each the most recent of its key and the earliest among equals |
| Review.KeysKept | scantrace-agent/internal/handler/review_filters.go:333-357 | no key disappears |
| Review.DedupeIdempotent | scantrace-agent/internal/handler/review_filters.go:333-357 | de-duplicating again changes nothing |
| Review.FilterReviewCases | scantrace-agent/internal/handler/review_filters.go:281-329 | the three filter loops in turn equal one conjunctive filter, followed by de-duplication and a prefix |
| Review.AnyFilterOrder | scantrace-agent/internal/handler/review_filters.go:281-318 | the three filters in any order, even repeated, followed by de-duplication and the limit, give what the pipeline gives |
| Review.LimitExtends | scantrace-agent/internal/handler/review_filters.go:322-328 | a larger limit, or none, only extends the result, 50 counting as the limit where none is set |
| Review.LimitCuts | scantrace-agent/internal/handler/review_filters.go:322-328 | the limit cuts the unlimited result, and is 50 where none is set |
| Review.CommandIsBounded | scantrace-agent/internal/handler/review_filters.go:57-329 | a command that parses shows at most 200 cases, and none only if no case passes its filters |
| Flags.Normalize | scantrace-agent/internal/handler/review_filters.go:168-190 | the severity loop returns what the specification collects, or the first unknown field as its error |
| Flags.NormalizeExact | scantrace-agent/internal/handler/review_filters.go:168-190 | a severity text is accepted if and only if it is not made of separators only and every field is a known name or alias; it then gives the set of severities named, else the error quotes the first unknown field or, without fields, the text |
| Flags.FieldsSplit | scantrace-agent/internal/handler/review_filters.go:169-171 | a separator separates the fields before it from those after it |
| Flags.OneField | scantrace-agent/internal/handler/review_filters.go:169-171 | text without separators is one field, or none when it is empty |
| Flags.FieldsOf | scantrace-agent/internal/handler/review_filters.go:169-171 | no field is empty or holds a separator |
| Flags.ParseReviewAllFlags | scantrace-agent/internal/handler/review_filters.go:59-124 | the loop, whose index always advances, parses the command flag by flag and stops at the first error, which it returns beside the options read so far |
| FlagsTheorems.ParseApplies | scantrace-agent/internal/handler/review_filters.go:59-124 | parsing applies the settings before the first error one after the other, and reports that error |
| FlagsTheorems.LastWins | scantrace-agent/internal/handler/review_filters.go:59-124 | each option ends up as its last setting says, or as it was |
| FlagsTheorems.GroupsConcat | scantrace-agent/internal/handler/review_filters.go:57-124 | cutting a command into flags with their values loses and reorders nothing |
| FlagsTheorems.OrderAgnostic | scantrace-agent/internal/handler/review_filters.go:57-124 | for a valid command with distinct flags every permutation of its flags gives the same options |
| FlagsTheorems.SwapForm | scantrace-agent/internal/handler/review_filters.go:65-91 | `--k=v` and `--k v` read alike for every flag that takes a value |
| FlagsTheorems.SwapAnywhere | scantrace-agent/internal/handler/review_filters.go:57-124 | exchanging the two forms wherever a flag can begin, that is, unless the arguments before end in a flag waiting for its value, changes neither the options read nor the error |
| FlagsTheorems.OrderAndFormAgnostic | scantrace-agent/internal/handler/review_filters.go:57-124 | for a valid command with distinct flags, every permutation of its flags with any of the value flags in the other form gives the same options |
| FlagsMeaning.SeverityWords | scantrace-agent/internal/handler/review_filters.go:175-187 | "high", "medium" and "low" stand for themselves, red for high, yellow, amber and med for medium, green for low, and no other word is accepted |
| FlagsMeaning.ListNormalizes | scantrace-agent/internal/handler/review_filters.go:168-190 | a list joined by a comma, a space or a tab names what its two parts name |
| FlagsMeaning.LimitFlag | scantrace-agent/internal/handler/review_filters.go:96-102 | `--limit n` sets the limit for n from 1 to 200 and is an error for any other number |
| FlagsMeaning.SinceFlag | scantrace-agent/internal/handler/review_filters.go:103-110 | `--since d` sets the age, and keeps the text, for a positive duration only |
| FlagsMeaning.SeverityFlag | scantrace-agent/internal/handler/review_filters.go:111-118 | `--severity list` sets the severities named, and keeps the text, or returns their error |
| FlagsMeaning.DedupeFlag | scantrace-agent/internal/handler/review_filters.go:81-83 | `--dedupe` switches on, unless its value is false, 0, no, n or off |
| FlagsMeaning.ExcludeFlag | scantrace-agent/internal/handler/review_filters.go:78-80 | so does `--exclude-wan-only` |
| FlagsMeaning.BadFlags | scantrace-agent/internal/handler/review_filters.go:62-121 | what is no flag, no known flag or lacks its value is an error that says so |
| FlagsMeaning.PaddingIgnored | scantrace-agent/internal/handler/review_filters.go:97-136 | white space around a limit, a switch's value or a severity makes no difference |
| FlagsMeaning.CapitalsIgnored | scantrace-agent/internal/handler/review_filters.go:74-177 | nor do capital letters in a flag's name, a switch's value or a severity |
| FlagsMeaning.NoFlags | scantrace-agent/internal/handler/review_filters.go:57-329 | a command without flags shows the first 50 cases |
| FlagsMeaning.SeverityCommand | scantrace-agent/internal/handler/review_filters.go:57-329 | `--severity x` shows the first 50 cases of severity x, whatever the case of its letters |
| SplitArgs.Split | scantrace-agent/internal/handler/handler.go:272-293 | the loop computes the specified tokens |
| SplitArgs.TokensConserve | scantrace-agent/internal/handler/handler.go:272-293 | for any input no token is empty or holds a quote, and the tokens concatenate to the input without its quotes and unquoted spaces |
| SplitArgs.SplitsAtSpace | scantrace-agent/internal/handler/handler.go:272-293 | a space outside quotes separates the tokens before it from those after it |
| SplitArgs.OneToken | scantrace-agent/internal/handler/handler.go:272-293 | text without unquoted spaces is one token, or none if nothing is left of it |
| SplitArgs.RoundTrip | scantrace-agent/internal/handler/handler.go:272-293 | quoting tokens that hold spaces, joining with spaces and splitting gives the tokens back |

## Left out

- The UDP socket, the regular expressions of `parse`, tickers, Slack, HTTP, LLM and MCP: the model starts
  from a parsed line and ends with a log of the cases handed to the alerter.
- Titles, summaries, notes, log lines, metrics and timestamps of the listener. The source addresses and
  protocols of a burst feed only such text.
- UUIDs are one counter, so that they are distinct is assumed, not proved; an insert never meets its own id.
  Ids stored before a listener started are negative, so that they differ from its own.
- SQL, JSON columns and schema: a failed statement is taken to change nothing.
- Analysts closing, reopening or deleting cases, and deleting events or sensors, between the listener's steps.
- SyslogService.Listener.Listen: the objects serve calls one at a time; interleavings are covered by the
  machine's theorems, which the objects share.
- SyslogService.Listener.Ingest: it and FlushBurst are split into helper methods, one per branch of the code.
- Fallback alerts of a failed merge and alerts of high cases are posted without the channel, so that
  AlertSemaphore.Bounded speaks of the alerts that use it.
- Blocklist.BuildBlocklistLines: the prefix of an address is a parameter, so that the theorems hold for IPv4,
  IPv6 and unparsable text alike; BlocklistIpv4 takes the prefixes of dotted quads and no others; groups are map values where the source has references; the library's
  stable sort is the insertion sort that StableSortUnique shows to be its only possible result. The flags,
  formats and file of the export command are not modelled.
- Scoring.ScoreMonotone: scores are real numbers; rounding of floating-point division is not modelled.
- Correlator.Run: reading the tables is a parameter, as are the clock and the sources whose insert fails;
  entity links, enrichment and case texts are not modelled.
- Ipv4Theorems.ExternalAgrees: dotted quads only. The text test for "::1" is no prefix test on bits.
- Text.ToLower and Text.TrimSpace: ASCII only.
- Review.FilterReviewCases: latest event, recency, edge-only and key of a case are parameters.
- Flags.ParseReviewAllFlags: reading a duration is a parameter.
