# Security operations console: state rules of the front end

This project models, in Dafny, the rules a security operations web console
applies to its own state. At the centre is the incident board (the SOAR
Kanban). It sorts incidents from the backend into four fixed columns
(`new`, `analysis`, `containment`, `resolved`). Its drag handlers move a
card from one column to another. Around it sit smaller rules taken from
other screens:

- the sidebar's role-based navigation filter;
- the topology editor's add, update and delete of nodes, and its node
  property form;
- the expanded-row set of the threat-hunting log table;
- the single expanded agent of the agent list;
- the bounded buffer of the live monitor;
- the search and cloud filters of the IaC manager, the software hub, the
  tracing page, tenant management, the per-agent software table and the
  log explorer.

Each source file becomes one module. Where the source keeps state in a
component and handlers replace it, the module has a class with those
fields, and methods proved against pure functions. Examples are
`KanbanBoard.Board`, `DashboardLayout.Sidebar`,
`NetworkTopology.TopologyEditor`, `NodeProperties.PropertiesPanel`,
`LogTable.Table`, `Agents.AgentList`, `LiveMonitor.Monitor` and
`LogExplorer.Explorer`. Expression-only code, such as the filters, becomes
functions and lemmas.

Four shared modules carry what the screens have in common:

- `Wrappers` holds `Option`.
- `Strings` holds ASCII lower-casing, substring containment (`includes`),
  `startsWith` and decimal numerals.
- `Seqs` holds an order-preserving `Filter` with its sub-sequence
  relation and its count of kept positions (`KeptCount`, `FilterCount`),
  and `Map`.
- `Fetch` holds the "use the backend's list when it has rows, else the
  built-in sample" choice.

The board's store is a record of four card sequences. The partition
invariant is stated through per-id counts: `UniqueIds` says each id is held
at most once across the board. Grouping is proved to give every id exactly
as many cards as the response has incidents with that id, and a board
exactly as many cards as incidents, so the board is unique exactly when the
response is. Drag-over is proved to keep every id's count and the total on
a board whose ids are unique, so it preserves uniqueness.

A card's severity is declared as one of four values
(src/components/soar/KanbanBoard.tsx:28), but the conversion at line 79
casts the lower-cased `impact_level` with `as any`, which bypasses that
type. So any non-empty level is kept, lower-cased, and `medium` is used
only when the level is missing or empty. The model follows the conversion
(`KanbanBoard.NormalizeCard`).

## Model

| member | source | states |
|---|---|---|
| KanbanBoard.ColumnOfKey | src/components/soar/KanbanBoard.tsx:101 | an id names a column exactly when it is one of the four column keys, and then names that column |
| KanbanBoard.Store.With | src/components/soar/KanbanBoard.tsx:143-152 | replacing one column's cards leaves the other three columns as they were |
| KanbanBoard.Count | src/components/soar/KanbanBoard.tsx:143-152 | counting helper: the number of cards with an id in one list never exceeds that list's length |
| KanbanBoard.CountZeroIff | src/components/soar/KanbanBoard.tsx:143-152 | an id is counted zero times exactly when no card in the list has it |
| KanbanBoard.CountAppend | src/components/soar/KanbanBoard.tsx:76-83 | counts of an id add up over concatenated card lists |
| KanbanBoard.BoardCountUpdate | src/components/soar/KanbanBoard.tsx:143-152 | replacing one column changes an id's board-wide count, and the board total, by exactly the change in that column |
| KanbanBoard.ColumnCountBound | src/components/soar/KanbanBoard.tsx:100-105 | one column never holds an id more often than the whole board |
| KanbanBoard.ColumnFor | src/components/soar/KanbanBoard.tsx:68-74 | "analy"/"invest" in the lower-cased status give analysis whatever else it says; containment needs "contain"; resolved needs "resolv"/"close" and no "contain"; new means no keyword; a missing or empty status gives new |
| KanbanBoard.ColumnForIgnoresCase | src/components/soar/KanbanBoard.tsx:68 | the column choice does not depend on the case of the status |
| KanbanBoard.ColumnForKey | src/components/soar/KanbanBoard.tsx:68-74 | a status spelled like a column key, in any case, starts the incident in that column |
| KanbanBoard.NewKeyColumn | src/components/soar/KanbanBoard.tsx:68-74 | a status reading "new" in any case starts the incident in the new column |
| KanbanBoard.AnalysisKeyColumn | src/components/soar/KanbanBoard.tsx:68-71 | a status reading "analysis" in any case starts the incident in the analysis column |
| KanbanBoard.ContainmentKeyColumn | src/components/soar/KanbanBoard.tsx:68-72 | a status reading "containment" in any case holds neither "analy" nor "invest" and starts the incident in the containment column |
| KanbanBoard.ResolvedKeyColumn | src/components/soar/KanbanBoard.tsx:68-73 | a status reading "resolved" in any case holds none of the earlier keywords and starts the incident in the resolved column |
| KanbanBoard.ColumnForFirstMatchWins | src/components/soar/KanbanBoard.tsx:71-72 | the status "invest/contain", which mentions both an investigation and containment, goes to analysis, because the first keyword group found wins |
| KanbanBoard.Normalize | src/components/soar/KanbanBoard.tsx:77 | a card keeps the incident's id |
| KanbanBoard.NormalizeCard | src/components/soar/KanbanBoard.tsx:76-83 | a card keeps the incident's id and title; it is always "Unassigned" and "Just now"; its severity is never empty and never upper case; it is "medium" only for a missing or empty impact level, otherwise it is that level, lower-cased |
| KanbanBoard.BucketSnoc | src/components/soar/KanbanBoard.tsx:66-84 | one more incident extends exactly the bucket of its own column, at the end |
| KanbanBoard.GroupSnoc | src/components/soar/KanbanBoard.tsx:66-84 | grouping one more incident appends its card to its column and leaves the other columns unchanged |
| KanbanBoard.Rebuild | src/components/soar/KanbanBoard.tsx:64-85 | the in-place `forEach`/`push` loop over a fresh four-column record builds exactly the grouped store |
| KanbanBoard.RawCount | src/components/soar/KanbanBoard.tsx:66 | counting helper: the number of incidents with an id never exceeds the length of the incident list |
| KanbanBoard.GroupCounts | src/components/soar/KanbanBoard.tsx:64-85 | after a rebuild every id is held as often as it occurs among the incidents, and the board holds exactly as many cards as there were incidents |
| KanbanBoard.GroupCountOf | src/components/soar/KanbanBoard.tsx:64-85 | after a rebuild one given id is held as often as it occurs among the incidents, and the card count equals the incident count |
| KanbanBoard.GroupCountStep | src/components/soar/KanbanBoard.tsx:76-83 | one more incident adds exactly one card to the board, counted under the incident's id |
| KanbanBoard.GroupUniqueIds | src/components/soar/KanbanBoard.tsx:64-85 | a rebuilt board has unique ids if and only if the incident list has |
| KanbanBoard.SameCountsSameUniqueness | src/components/soar/KanbanBoard.tsx:64-85 | a board whose per-id counts match an incident list is unique exactly when that list is |
| KanbanBoard.GroupPlacement | src/components/soar/KanbanBoard.tsx:70-83 | every incident's card lands in the column its status selects, and every card in a column comes from an incident whose status selects that column |
| KanbanBoard.GroupGet | src/components/soar/KanbanBoard.tsx:64-84 | a rebuilt column holds the normalised incidents whose status selects it, in input order |
| KanbanBoard.GroupPlacesOne | src/components/soar/KanbanBoard.tsx:70-83 | one given incident's card is in the column its status selects |
| KanbanBoard.GroupHoldsOnly | src/components/soar/KanbanBoard.tsx:70-83 | a card found in a rebuilt column comes from an incident whose status selects that column |
| KanbanBoard.GroupKeepsOrder | src/components/soar/KanbanBoard.tsx:66-84 | within a column, cards keep the order of their incidents in the response |
| KanbanBoard.FindIndex | src/components/soar/KanbanBoard.tsx:127-128 | the result is the first position holding the id, or -1 exactly when no card has it |
| KanbanBoard.FindCardColumn | src/components/soar/KanbanBoard.tsx:102-104 | the result is the first column, in board order, holding a card with the id; none exactly when no column holds one |
| KanbanBoard.FindContainer | src/components/soar/KanbanBoard.tsx:100-105 | a column key names its own column; any other id gives the column found by card search |
| KanbanBoard.InsertIndex | src/components/soar/KanbanBoard.tsx:130-141 | hovering a column or an id no card has gives one past the end; otherwise the index of the hovered card, or the slot after it when the dragged card is below it |
| KanbanBoard.Insert | src/components/soar/KanbanBoard.tsx:148-152 | the card sits at the clamped index, with the cards before and after it unchanged and in order |
| KanbanBoard.WithoutId | src/components/soar/KanbanBoard.tsx:145-147 | no card with the id is left; every other card stays, in order |
| KanbanBoard.NextOnDragOver | src/components/soar/KanbanBoard.tsx:115-153 | the store is unchanged exactly when a guard returns early: no hover target, hovering itself, no column holds the dragged card, the hovered id names neither a column nor a card, or both are in the same column |
| KanbanBoard.Dragged | src/components/soar/KanbanBoard.tsx:125-127 | the dragged record carries the dragged id and comes from the column that holds it |
| KanbanBoard.Landing | src/components/soar/KanbanBoard.tsx:130-141 | the landing position never lies past the end of the target column |
| KanbanBoard.DragOverLeaves | src/components/soar/KanbanBoard.tsx:143-147 | a cross-column move removes every card with the dragged id from its column, keeps the other cards there, and leaves the two uninvolved columns untouched |
| KanbanBoard.DragOverLands | src/components/soar/KanbanBoard.tsx:130-152 | a cross-column move puts the dragged record into the target column at its landing position, with the cards before and after it unchanged and in order |
| KanbanBoard.LandsAt | src/components/soar/KanbanBoard.tsx:130-152 | for a hovered column the card goes at the end; for a hovered card it goes in front of it, or just after it when below; the other cards keep their order |
| KanbanBoard.InsertAt | src/components/soar/KanbanBoard.tsx:130-152 | the clamped insert position is the end for a hovered column, else the hovered card's index, one further when below |
| KanbanBoard.MoveFacts | src/components/soar/KanbanBoard.tsx:143-152 | a move filters the source column, inserts into the target column and copies the other two |
| KanbanBoard.WithoutIdCount | src/components/soar/KanbanBoard.tsx:145-147 | removing an id drops all of its occurrences and no other card |
| KanbanBoard.InsertCount | src/components/soar/KanbanBoard.tsx:148-152 | inserting a card adds exactly one occurrence of its id |
| KanbanBoard.DragOverKeepsIds | src/components/soar/KanbanBoard.tsx:143-152 | on a board with unique ids, a drag-over keeps every id's count and the total, so ids stay unique |
| KanbanBoard.MoveKeepsCounts | src/components/soar/KanbanBoard.tsx:143-152 | moving a card whose id occurs once in its column keeps every id's count and the card total |
| KanbanBoard.MoveKeepsCount | src/components/soar/KanbanBoard.tsx:143-152 | such a move keeps one given id's board-wide count |
| KanbanBoard.MoveKeepsTotal | src/components/soar/KanbanBoard.tsx:143-152 | such a move keeps the number of cards on the board |
| KanbanBoard.MoveSteps | src/components/soar/KanbanBoard.tsx:143-152 | a move rewrites the source column first and the target column second, and the first step does not touch the target |
| KanbanBoard.NextOnDragOverAsWritten | src/components/soar/KanbanBoard.tsx:111-155 | the handler as written agrees with the corrected one whenever the dragged id is not a column key |
| KanbanBoard.AsWrittenInsertsUndefined | src/components/soar/KanbanBoard.tsx:100-105 | a card with id "new" in the analysis column, dragged over card "x" in the containment column, makes the code as written insert `undefined` |
| KanbanBoard.ColumnOfOwnKey | src/components/soar/KanbanBoard.tsx:101 | each column's key names that column |
| KanbanBoard.AsWrittenLosesKeyNamedCard | src/components/soar/KanbanBoard.tsx:100-105 | whenever the card named after a column sits outside that column and is dragged over another column, the code as written has no card to move |
| KanbanBoard.CorrectedMovesKeyNamedCard | src/components/soar/KanbanBoard.tsx:100-152 | with the corrected lookup such a card leaves the column it was in and is in the hovered column afterwards |
| KanbanBoard.DropOnColumnAppends | src/components/soar/KanbanBoard.tsx:131-132 | hovering a column, from a card in any other column, appends the dragged record at the end of that column |
| KanbanBoard.SnocParts | src/components/soar/KanbanBoard.tsx:148-152 | a list one longer than the old column, starting with it and ending in the card, is the old column with the card appended |
| KanbanBoard.DuplicateIdsLoseCards | src/components/soar/KanbanBoard.tsx:146 | with two cards both carrying id "a" in the new column, hovering the analysis column loses a card, because the filter removes every card with the dragged id |
| KanbanBoard.Board.constructor | src/components/soar/KanbanBoard.tsx:54-55 | the board starts with four empty columns and nothing dragged |
| KanbanBoard.Board.Refresh | src/components/soar/KanbanBoard.tsx:58-89 | a response replaces the whole store with its grouping; a failed request changes nothing |
| KanbanBoard.Board.HandleDragStart | src/components/soar/KanbanBoard.tsx:107-109 | drag start records the dragged id and leaves the columns alone |
| KanbanBoard.Board.HandleDragOver | src/components/soar/KanbanBoard.tsx:111-155 | the store becomes the drag-over result; on a board whose ids are unique, the ids stay unique and each id's count and the total are preserved |
| KanbanBoard.Board.HandleDragEnd | src/components/soar/KanbanBoard.tsx:157-185 | drag end never changes the columns and always clears the dragged id |
| DashboardLayout.EffectiveRole | src/layouts/DashboardLayout.tsx:167 | the user's role, or "viewer" when the user or the role is missing or empty |
| DashboardLayout.FilterNav | src/layouts/DashboardLayout.tsx:160-168 | the shown groups are an order-preserving sub-sequence of the menu, holding exactly the visible groups with their items unchanged, each as often as it occurs in the menu |
| DashboardLayout.VisibilityRules | src/layouts/DashboardLayout.tsx:161-167 | ADMINISTRATION is shown exactly to superusers, whatever its roles say; a group without roles is always shown; any other group is shown exactly when the effective role is listed |
| DashboardLayout.NonSuperuserView | src/layouts/DashboardLayout.tsx:77-168 | with no user, or a non-superuser without a role, the menu is every group except ADMINISTRATION, in order |
| DashboardLayout.UnlistedRoleView | src/layouts/DashboardLayout.tsx:147-167 | a superuser with an unlisted role sees ADMINISTRATION but not 2030 VISION |
| DashboardLayout.Sidebar.constructor | src/layouts/DashboardLayout.tsx:70 | the sidebar starts open |
| DashboardLayout.Sidebar.Toggle | src/layouts/DashboardLayout.tsx:264 | each menu click flips the sidebar |
| NetworkTopology.NewNodeData | src/pages/NetworkTopology.tsx:78-83 | a new node's data has exactly the label, type, status and ip keys |
| NetworkTopology.NewNode | src/pages/NetworkTopology.tsx:72-84 | the new id is the decimal numeral of the previous count plus one, without leading zeros; the node is "custom" at the given position, labelled "New Node {id}" with ip "10.0.99.{id}", a healthy server |
| NetworkTopology.Overlay | src/pages/NetworkTopology.tsx:91-94 | the node keeps its id, kind and position; the new data's keys override, and the other old keys stay |
| NetworkTopology.UpdateNodes | src/pages/NetworkTopology.tsx:88-97 | every node with the id gets the overlay, every other node is identical, and length and order are kept |
| NetworkTopology.DeleteNodes | src/pages/NetworkTopology.tsx:102-103 | exactly the nodes without the id remain, in order, each as often as it occurs in the list |
| NetworkTopology.UpdateKeepsIds | src/pages/NetworkTopology.tsx:88-97 | an update never changes any node's id |
| NetworkTopology.UpdateAbsentId | src/pages/NetworkTopology.tsx:89-97 | updating an id no node has leaves the list unchanged |
| NetworkTopology.UpdateIdempotent | src/pages/NetworkTopology.tsx:88-97 | applying the same update twice equals applying it once |
| NetworkTopology.DeleteThenAddDuplicatesId | src/pages/NetworkTopology.tsx:73 | deleting node "1" of two and adding a node gives two nodes with id "2", because the new id is not checked |
| NetworkTopology.TopologyEditor.constructor | src/pages/NetworkTopology.tsx:46-48 | the editor starts with no nodes, no edges and no selection |
| NetworkTopology.TopologyEditor.NodeClick | src/pages/NetworkTopology.tsx:68-70 | a click selects the node and changes nothing else |
| NetworkTopology.TopologyEditor.AddNode | src/pages/NetworkTopology.tsx:72-86 | exactly one new node is appended, earlier nodes are unchanged, and edges and selection stay |
| NetworkTopology.TopologyEditor.UpdateNode | src/pages/NetworkTopology.tsx:88-100 | the nodes are updated; a selected node gets the same overlay and no selection stays none; edges are untouched |
| NetworkTopology.TopologyEditor.DeleteNode | src/pages/NetworkTopology.tsx:102-105 | the nodes with the id go, the selection clears, and edges to the deleted node remain |
| NetworkTopology.TopologyEditor.CloseProperties | src/pages/NetworkTopology.tsx:115 | closing the panel clears the selection only |
| NodeProperties.ValueOr | src/components/topology/NodeProperties.tsx:27-30 | the stored value when present and non-empty, otherwise the default |
| NodeProperties.FormFromData | src/components/topology/NodeProperties.tsx:24-33 | each field takes the node's value or the initial form's default; type and status are never empty |
| NodeProperties.FormData | src/components/topology/NodeProperties.tsx:39 | the submitted data has exactly the label, ip, type and status keys |
| NodeProperties.FormRoundTrip | src/components/topology/NodeProperties.tsx:24-39 | reading back a submitted form gives the same form whenever type and status are filled in |
| NodeProperties.WithField | src/components/topology/NodeProperties.tsx:61-94 | an edit sets its own field and leaves the other three as they were |
| NodeProperties.SubmitReadsBack | src/components/topology/NodeProperties.tsx:37-41 | after a submit updates the node list, reopening the node shows the submitted form |
| NodeProperties.PropertiesPanel.constructor | src/components/topology/NodeProperties.tsx:17-33 | the panel opens with the node's values, or with the initial form when there is no node |
| NodeProperties.PropertiesPanel.SetNode | src/components/topology/NodeProperties.tsx:24-33 | a new node refills the form; no node keeps the form as it was |
| NodeProperties.PropertiesPanel.Edit | src/components/topology/NodeProperties.tsx:61-94 | an input change rewrites only that field of the form |
| NodeProperties.PropertiesPanel.Submit | src/components/topology/NodeProperties.tsx:37-41 | submit calls the update callback with the node's id and the form, then the close callback |
| NodeProperties.PropertiesPanel.Delete | src/components/topology/NodeProperties.tsx:103 | delete calls the delete callback with the node's id |
| LogTable.IdSet.Empty | src/components/threat-hunting/LogTable.tsx:28 | a new set is empty |
| LogTable.IdSet.Copy | src/components/threat-hunting/LogTable.tsx:31 | a copy holds the same ids |
| LogTable.IdSet.Add | src/components/threat-hunting/LogTable.tsx:35 | add inserts exactly that id |
| LogTable.IdSet.Delete | src/components/threat-hunting/LogTable.tsx:33 | delete removes exactly that id |
| LogTable.Toggled | src/components/threat-hunting/LogTable.tsx:30-37 | the id is in the result exactly when it was not in the set; every other id keeps its membership |
| LogTable.ToggleTwice | src/components/threat-hunting/LogTable.tsx:30-37 | toggling the same id twice restores the set |
| LogTable.Rows | src/components/threat-hunting/LogTable.tsx:61-89 | every log gives at least one row |
| LogTable.SummaryRowsInOrder | src/components/threat-hunting/LogTable.tsx:61-67 | the summary rows are one per log, in log order, each with that log's id and its chevron down exactly when the id is expanded |
| LogTable.DetailsShownIff | src/components/threat-hunting/LogTable.tsx:81-89 | a details row appears for an id exactly when some log has that id and the id is expanded |
| LogTable.Table.constructor | src/components/threat-hunting/LogTable.tsx:28 | the expanded set starts empty |
| LogTable.Table.ToggleRow | src/components/threat-hunting/LogTable.tsx:30-38 | a fresh set with the id toggled is installed, and the previous set object is not modified |
| LogTable.Table.Render | src/components/threat-hunting/LogTable.tsx:65-89 | the table shows a log's details exactly when its id is in the expanded set |
| Agents.NextExpanded | src/pages/Agents.tsx:52-54 | clicking the expanded agent collapses it; clicking any other agent expands that one instead |
| Agents.ClickTwice | src/pages/Agents.tsx:52-54 | two clicks on the same agent restore the state when it was expanded, and leave none expanded otherwise |
| Agents.DetailPanels | src/pages/Agents.tsx:143-144 | detail panels are shown, in list order, for exactly the agents whose id is the expanded one, one per such list entry; none when nothing is expanded |
| Agents.AtMostOnePanel | src/pages/Agents.tsx:143-144 | with distinct agent ids at most one detail panel is shown |
| Agents.AgentList.constructor | src/pages/Agents.tsx:33 | no agent is expanded at first |
| Agents.AgentList.ToggleExpand | src/pages/Agents.tsx:52-54 | the expanded id becomes the click's result |
| LiveMonitor.Appended | src/pages/LiveMonitor.tsx:15 | the buffer becomes the last min(20, n) old entries, in order, followed by the new one, so it never exceeds 21 entries |
| LiveMonitor.Newest | src/pages/LiveMonitor.tsx:15 | the window of a line list holds min(21, n) lines |
| LiveMonitor.FeedKeepsNewest | src/pages/LiveMonitor.tsx:11-19 | after any number of ticks from empty, the buffer is the newest at most 21 entries, in order |
| LiveMonitor.FeedWindow | src/pages/LiveMonitor.tsx:15 | feeding at least one line into a buffer of at most 21 entries leaves the newest 21 of the old and new entries together, in order |
| LiveMonitor.NewestOfSuffix | src/pages/LiveMonitor.tsx:15 | dropping old lines that the window would not keep anyway does not change the window |
| LiveMonitor.Monitor.constructor | src/pages/LiveMonitor.tsx:7-8 | the buffer starts empty and the feed stopped |
| LiveMonitor.Monitor.ToggleLive | src/pages/LiveMonitor.tsx:25 | the toggle flips the feed and keeps the buffer |
| LiveMonitor.Monitor.Tick | src/pages/LiveMonitor.tsx:11-19 | a tick appends only while the feed is live, and the buffer stays within bounds |
| IacManager.FilteredStacks | src/pages/IaCManager.tsx:119 | "All" returns the stacks unchanged; otherwise exactly the stacks on that cloud remain, in order, one per such list entry |
| IacManager.FilteredFeatures | src/pages/IaCManager.tsx:120-125 | "All" returns the features unchanged; otherwise exactly those whose id starts with "aws", "az" or "gcp" remain, in order, one per such list entry |
| IacManager.StacksOnOneCloud | src/pages/IaCManager.tsx:119 | no stack is listed under two different clouds |
| IacManager.FeaturesOnOneCloud | src/pages/IaCManager.tsx:121-123 | no feature is listed under two different clouds, since the three prefixes differ in their first two letters |
| IacManager.StackListedUnderItsCloud | src/pages/IaCManager.tsx:119 | a stack appears under its own cloud and under no other |
| Fetch.OrFallback | src/pages/SoftwareHub.tsx:26-34 | a response with rows is used as it is; an empty list, a missing list or an error gives the fallback |
| Search.EmptyTermMatches | src/pages/SoftwareHub.tsx:39-42 | an empty search term matches every field |
| Search.MatchIgnoresTermCase | src/pages/SoftwareHub.tsx:39-42 | a match does not depend on the case of the term |
| Search.MatchIsOccurrence | src/pages/SoftwareHub.tsx:39-42 | a match means that the lower-cased term occurs at some position of the lower-cased field |
| SoftwareHub.Inventory | src/pages/SoftwareHub.tsx:22-37 | a response with rows is the inventory; otherwise the sample list, so the inventory is never empty when the sample is not |
| SoftwareHub.Filtered | src/pages/SoftwareHub.tsx:39-42 | exactly the items whose name or vendor matches stay, in order, one per matching list entry |
| SoftwareHub.EmptySearchKeepsAll | src/pages/SoftwareHub.tsx:39-42 | an empty search keeps the whole inventory |
| SoftwareHub.SearchIgnoresCase | src/pages/SoftwareHub.tsx:39-42 | the search result does not depend on the case of the term |
| SoftwareHub.NoneFoundIff | src/pages/SoftwareHub.tsx:124-128 | the "No software found" message shows exactly when no item matches |
| Tracing.Filtered | src/pages/Tracing.tsx:35-38 | exactly the traces whose service name or operation matches stay, in order, one per matching list entry |
| Tracing.EmptySearchKeepsAll | src/pages/Tracing.tsx:35-38 | an empty term keeps every trace |
| Tracing.Render | src/pages/Tracing.tsx:75-78 | "No traces found." shows exactly when no trace matches; otherwise the rows are the filtered traces |
| TenantsManagement.ToTenant | src/pages/TenantsManagement.tsx:28-36 | agent_count, agent_limit and created_at move to their camelCase fields, and the rest are copied |
| TenantsManagement.RenamingRoundTrips | src/pages/TenantsManagement.tsx:28-36 | renaming and renaming back lose nothing, in both directions |
| TenantsManagement.LoadTenants | src/pages/TenantsManagement.tsx:23-44 | a response with rows gives the renamed list, with the same length and order; otherwise the sample tenants |
| TenantsManagement.Filtered | src/pages/TenantsManagement.tsx:49 | exactly the tenants whose name matches stay, in order, one per matching list entry |
| TenantsManagement.Render | src/pages/TenantsManagement.tsx:49-106 | the "Total Tenants" card shows the length of the whole list, while the table gets exactly the tenants whose name matches; the card never shows fewer than the table |
| TenantsManagement.EmptySearchShowsAll | src/pages/TenantsManagement.tsx:49-106 | with an empty search the table lists every tenant, in order, and the card equals the table's row count |
| AgentSoftwareTable.Filtered | src/components/dashboard/AgentSoftwareTable.tsx:39-42 | exactly the items whose name matches, or whose vendor is present and matches, stay, in order; an item without a vendor is judged by its name alone; one row per matching list entry |
| AgentSoftwareTable.EmptySearchKeepsAll | src/components/dashboard/AgentSoftwareTable.tsx:39-42 | an empty search keeps every item, in order |
| AgentSoftwareTable.VendorCell | src/components/dashboard/AgentSoftwareTable.tsx:92 | a missing or empty vendor shows as "-" |
| AgentSoftwareTable.Render | src/components/dashboard/AgentSoftwareTable.tsx:44-99 | loading wins; an empty inventory gives its own message; otherwise the header counts the whole inventory, the rows are the filtered items, and "No matches found." shows exactly when no item matches |
| LogExplorer.FetchedLogs | src/pages/LogExplorer.tsx:31-48 | a response with rows is shown unfiltered; otherwise exactly the sample logs the query keeps, in order, one per kept sample entry |
| LogExplorer.ErrorLikeEmpty | src/pages/LogExplorer.tsx:34-48 | an empty answer, a missing list and a failed request all show the same filtered sample |
| LogExplorer.EmptyQueryKeepsSample | src/pages/LogExplorer.tsx:37 | with an empty query the fallback is the whole sample list |
| LogExplorer.LevelIsCaseSensitive | src/pages/LogExplorer.tsx:39 | the level is compared without lower-casing, so "critical" does not find a "CRITICAL" record through its level |
| LogExplorer.Explorer.constructor | src/pages/LogExplorer.tsx:10-12 | the page starts with an empty query, no logs, and loading |
| LogExplorer.Explorer.SetQuery | src/pages/LogExplorer.tsx:76 | typing changes only the query |
| LogExplorer.Explorer.BeginFetch | src/pages/LogExplorer.tsx:27-31 | a fetch sets loading and sends the current query |
| LogExplorer.Explorer.FinishFetch | src/pages/LogExplorer.tsx:32-51 | when the request answers or fails, the logs become the fetched result for the query sent, and loading ends on either path |

## Left out

- Backend requests, `useEffect` scheduling and the 30-second agent polling are not modelled. A request's outcome is a parameter (`Fetch.Response`, `Option`), and each handler is one synchronous state transition.
- The board refetch that can run while a card is being dragged is not modelled, because it is a timing race.
- The drag-and-drop and graph libraries are not modelled: collision detection, sensors, the drag overlay, `addEdge` and the node-change handlers. The pointer rectangles reduce to the boolean `isBelow` input of `KanbanBoard.Over`.
- Intra-column reordering is a no-op in the source. `KanbanBoard.Board.HandleDragEnd` models it as one.
- Lower-casing is ASCII only. Unicode case mapping is not modelled.
- A JavaScript `in` test on the store also matches inherited property names such as "toString". `KanbanBoard.ColumnOfKey` recognises only the four column keys.
- Random node positions, generated live-monitor text, timestamps and date formatting are opaque values or parameters.
- The sample lists of the software hub, tenant management and log explorer are parameters, not their literal contents.
- The topology editor's initial graph load, with its fallback sample graph, and `onConnect` are not modelled. Edges are carried along unchanged.
- The log table's details JSON rendering and the tracing, agent software and agent list fetches are not modelled.
- SoftwareHub.Filtered: every item is assumed to have a vendor string. In the source, an item without a vendor whose name does not match raises an error inside the filter.
- IacManager.FilteredFeatures: the fall-through `return true` for an unknown selection is left out. The selection is typed, so that case cannot arise.
- KanbanBoard.Board.HandleDragOver / KanbanBoard.NextOnDragOver: apply the corrected active-column lookup of the Findings row, which finds the column that holds the dragged card. The source's lookup answers with a column key first; it is modelled separately as `KanbanBoard.NextOnDragOverAsWritten`, and the two agree whenever the dragged id is not a column key.
- The `Incident` severity keeps whatever lower-cased `impact_level` arrives. It is not narrowed to the four documented values, just as in the source.

## Findings

| source | as written | input that shows it | evidently intended | confidence | as-written member | corrected member |
|---|---|---|---|---|---|---|
| src/components/soar/KanbanBoard.tsx:100-105, 117, 125-150 | `handleDragOver` finds the dragged card's column with `findContainer(active.id)`, which answers with a column key before it looks at the cards | a card with id "new" in the analysis column, dragged over card "x" in the containment column: the lookup gives the `new` column, `activeIndex` is -1, `undefined` is inserted into containment, and the card stays where it was | the dragged card's column is the one that holds the card, so the card moves and every id keeps its count | not executed | KanbanBoard.AsWrittenInsertsUndefined | KanbanBoard.NextOnDragOver, KanbanBoard.CorrectedMovesKeyNamedCard |
