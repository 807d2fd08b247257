# Verification of the congregation organigram and its neighbours

A Dafny 4.11 model of the parts of the application whose correctness no database constraint holds, with machine-checked
proofs about them. `dafny verify dfyconfig.toml` checks everything; no file depends on anything outside this directory.

## What is modelled

**The organigram.** A congregation's roles are rows with a parent, an order and an "on the chart" flag. The rows form a
forest only because the code keeps them one. The model holds the pure rules (`Roles`), the readers (`Queries`, `Tree`
and its imperative `Builder`, `Layout`, `Sheet`, `Headers`, `ServiceLines`, `Matrix`, `Panel`), the writers on values
(`Chart`) and as a class over the table of rows (`Organigrams`). Readers are proved on any rows, cyclic ones included.
Writers are proved to keep the invariant `Safety.Sound` over every run (`Safety`, `Runs`), to decide as the links alone
dictate (`Decisions`), to write exactly the rows they should (`Decisions`, `ChartEffects`), to move whole subtrees
(`Grafting`) and to exchange neighbours (`Reordering`). `TreeSpec` says what the assembled tree is, `SheetOrder` how the
sheet is ordered and `MatrixColumns` which columns the matrix has, each from the rows or the tree alone. The reorder
arrows are compared with the lists the chart shows (`Arrows`), and what a refused operation leaves behind is pinned down
(`Refusals`). `Graph` is the theory of parent links underneath.

**Seats and permissions.** Assignments, identity roles, role permissions and the derived service committee (`Access` on
values, `SeatBooks` as a class), who may change what and exactly what each change leaves, read from the rows alone
(`AccessRules`, `AccessEffects`), what seatings keep (`Seats`), the bound on delegation (`Delegation`), who takes
leadership seats away (`LeadershipSeats`), and how the last administrator can go (`LastAdmins`).

**Committee adoption.** The combined rewrite of tree, seats and permissions: people and permissions in `Adoption`, the
verdict and every row, grant and seat left in `AdoptionEffects`, the tree in `AdoptedTree`, the level every role ends at
in `AdoptedDepths`, what runs after an adoption keep in `AdoptedRuns`, concrete charts in `AdoptionExamples`, and the
steps as they run in `CommitteeAdoption`.

**Source scanners.** Two bracket matchers (`Scanning`), the `where` analysis (`WhereScanning`), the grammar it is meant
for (`WhereGrammar`) and the proof that it recovers that grammar (`WhereRecovery`). `MatcherAgreement` compares the two
matchers on any text.

**Calendar and clock.** ISO 8601 weeks (`IsoWeeks`) and wall clocks in a time zone (`WallClocks`).

**Rate limits.** The shared counters as atomic steps of concurrent requests (`RateLimits`), and a request run alone
(`RequestsAlone`).

Code that changes state step by step is a class or a method with loops, proved equal to a function on values; the
theorems are lemmas about those functions. Display names are a `name` with a `collation` rank, equal ranks standing for
names the locale compares as equal. A lookup by id or key relies on the table's unique constraints, which are
preconditions.

## What the proofs show that the code's own words do not

- **Arrows.** `moveOrganigramNode` sorts the siblings that name one parent by order alone, so ties keep the order in
  which the rows come. The chart breaks ties by name, and shows a role whose parent is off the chart among the roots.
  The arrows of a shown list exchange what they stand beside exactly when its roles all name one parent and roles of
  equal order come in name order (`ArrowsWorkIff`). Either half can fail: a removal can leave a tie
  (`AnArrowCanDoNothing`), and adding a role under one that is off the chart strands it among the roots
  (`AStrayCannotMove`).
- **Seating an adjoint on a post.** The reconcile that follows leaves the committee to the titulaires that remain once
  the account gives up leading the post, while only the post's permissions were compared with the actor's.
  `SilentReconcile` says, before the call, that the committee's members are not these titulaires; a seating stays within
  what the actor holds, whatever the roles grant, exactly when that is not so (`SeatingBoundedIffNotSilent`). With the
  committee in step it means re-seating a titulaire as adjoint of the one post they lead (`SilentMeansDemotion`), and an
  example takes a permission away that the actor lacks (`ADemotionEscapes`); with a drifted committee any new adjoint
  may set it off.
- **Deleting a role.** `deleteRole` compares nothing with the actor's permissions. It stays within them exactly when the
  actor holds whatever the role's holders do not keep by other roles (`DeletionBoundedIff`, `ADeletionEscapes`).
- **The last administrator.** `requireNotLastAdmin` guards the roles a request names. An accepted request still leaves
  no administrator exactly when it empties, through a post, the committee by which all of them are administrators, or
  strips or deletes the one role that makes them so (`LastAdminGoesIff`, `TheLastAdminIsUnseated`).
- **Adoption and the elder roster.** Adoption leaves the chart free of cycles exactly when no choice takes over the
  elder roster (`AcyclicUnlessElderIsTaken`).
- **Adoption and depth.** Adoption checks no depth. `AdoptedDepth` computes the level of every role after it from the
  chart before it, the elder roster not being taken over, and the cap survives exactly when none of these levels passes
  ten (`AdoptionKeepsCapIff`). It breaks in two ways: a line of services sinks with the post that takes its top over,
  and one hung under a post not yet placed sinks with that post, without any choice made. An example of each is given.
- **A refused creation.** `createServiceInOrganigram` creates the role before attaching it and the route turns a refusal
  into a message inside the transaction. Of all chart operations on a sound chart, a refused one changes the rows
  exactly when it creates a role that the rules then refuse to attach: at the top, to itself, or below a full chain
  (`RefusalWritesIff`, `ARefusedServiceStays`). A parent that does not exist is a foreign-key error instead, which
  aborts the transaction.
- **Years before 100.** `Date.UTC` reads the years 0 to 99 as 1900 to 1999. `isoWeekOf` names a day's week exactly when
  neither the day nor its Thursday falls in such a year (`NamedRightlyIff`).
- **Minutes in which the offset changes.** Unless the printed time occurs twice, combining an instant's printed form
  returns the start of its minute, showing that time, exactly when the offset has not changed since that start
  (`CombinedPrintIsTheInstant`).
- **Leadership seats.** `removeUserFromRole` refuses to take a leader or deputy seat, so that these change hands on the
  chart only. The account form takes one exactly when it leaves out a role the account leads or deputises on
  (`FormUnseatsIff`); on one and the same seat the first refuses and the second goes through (`AFormUnseatsALeader`).
- **Matchers.** On any text the two matchers give an opening bracket the same answer exactly when the closing brackets
  up to its partner are the expected ones, or the running count of brackets never returns to zero and neither finds a
  partner (`MatchersAgreeIff`). The first is the case exactly when a bracketed text of the grammar stands there
  (`NestsIffText`). They can differ (`MatchersPartOnMismatch`).

## Model

| member | source | states |
|---|---|---|
| `Queries.AncestorChainIds` | app/shared/domain/organigram.queries.ts:136-149 | The loop ends on any links, cyclic too, and lists without repetition exactly the start and the ids above it, nearest first |
| `Queries.DescendantIds` | app/shared/domain/organigram.queries.ts:157-176 | The queue search lists without repetition exactly the other ids whose ancestor chain passes through the root: the dual of the ancestor chain, cycles included |
| `Queries.ChildrenByParent` | app/shared/domain/organigram.queries.ts:158-162 | The index holds, for every id, the ids linked to it, in row order |
| `Queries.HeightIsFarthestDescendant` | app/shared/domain/organigram.queries.ts:179-192 | On any links no descendant stands farther from the root than the height, and one stands exactly that far |
| `Graph.ChainIsLeast` | app/shared/domain/organigram.queries.ts:136-149 | The chain is the least set holding the start and closed under the parent link |
| `Tree.ForestShowsEachRoleOnce` | app/shared/domain/organigram.queries.ts:76-122 | For any rows with unique ids, self-parents, cycles and missing parents included, the tree shows every role exactly once and every edge is a parent link |
| `Tree.ForestMirrorsAcyclicRows` | app/shared/domain/organigram.queries.ts:76-122 | On acyclic rows the roots are exactly the roles whose parent is absent and under each role stand exactly its children, all in chart order |
| `Tree.MirrorIsUnique` | app/shared/domain/organigram.queries.ts:76-122 | Only one forest mirrors given rows, so the previous row fixes the tree completely |
| `TreeSpec.ForestDepictsRows` | app/shared/domain/organigram.queries.ts:56-122 | On acyclic rows each list of the tree shows exactly the rows that belong there, by order, then name, then as the rows come, each node with its row's fields and exactly its holders: leaders, deputies, the rest, by last name |
| `Tree.ForestLeadsWithTops` | app/shared/domain/organigram.queries.ts:107-121 | On any rows the true roots come first, in order; an extra root is one that stands under none of them |
| `Builder.BuildOrganigramTree` | app/shared/domain/organigram.queries.ts:76-122 | The building with maps, a visited set and pushed extra roots ends on any rows and yields that forest |
| `Lists.SortFilter` | app/shared/domain/organigram.queries.ts:58-62 | The stable sort of the rows commutes with dropping rows |
| `Organigrams.Organigram.NextOrderUnder` | app/shared/domain/organigram.server.ts:36-47 | The order handed out, five above the highest sibling order or zero |
| `Organigrams.Organigram.AddRoleToOrganigram` | app/shared/domain/organigram.server.ts:56-91 | Checks in their order, then one row replaced; the table is untouched on a refusal |
| `Organigrams.Organigram.SetOrganigramParent` | app/shared/domain/organigram.server.ts:221-257 | The move as decided and written, refusal included |
| `Decisions.MoveIsRight` | app/shared/domain/role-tree.policy.ts:54-83 | On a sound chart every move is decided by the links alone: a roster moves only to the top, the committee and its posts never, no other role to the top, none below itself, and none where a chain would pass ten; each refusal has its cause, and nothing else is refused |
| `Decisions.AdditionIsRight` | app/shared/domain/role-tree.policy.ts:54-100 | The same for additions, refused before for identity roles and the administrators' |
| `Decisions.CustomMovesIff` | app/shared/domain/role-tree.policy.ts:76-82 | A custom role moves under a known role exactly when that closes no cycle and no chain then passes ten levels; which of the two fails is which refusal |
| `Decisions.PlacementIsExact` | app/shared/domain/organigram.server.ts:36-91 | An accepted addition or move changes that one row: on the chart, under the parent, five above the highest order among the children shown there |
| `Organigrams.Organigram.CreateServiceInOrganigram` | app/shared/domain/organigram.server.ts:107-123 | Creation then attachment: a refused attachment keeps the new unplaced role, a parent that does not exist aborts both |
| `Organigrams.Organigram.RemoveRoleFromOrganigram` | app/shared/domain/organigram.server.ts:189-218 | Children lifted first, then the role taken off: together one contraction of the rows |
| `ChartEffects.RemovalIsExact` | app/shared/domain/organigram.server.ts:189-218 | Refused exactly for the committee and its posts; else the role's place is cleared, its children get its parent and keep all else, and every other row stays |
| `Organigrams.Organigram.MoveOrganigramNode` | app/shared/domain/organigram.server.ts:260-301 | The splice and the renumbering loop give the rows the transposition theorem speaks of |
| `ChartEffects.StoredOrderIs` | app/shared/domain/organigram.server.ts:268-272 | What is reordered: the chart's roles with this parent, by stored order, a missing one counting as zero, ties as the rows come |
| `ChartEffects.MoveIsExact` | app/shared/domain/organigram.server.ts:274-282 | Up exchanges a role with the one before it, down with the one after; the first does not go up nor the last down |
| `Organigrams.Organigram.SetRoleSinglePerson` | app/shared/domain/organigram.server.ts:135-179 | The shape change with its three refusals |
| `Organigrams.Organigram.CreateRole` | app/shared/domain/roles.server.ts:170-211 | A new unplaced role with an unused key, or a refusal that writes nothing |
| `ChartEffects.CreationIsExact` | app/shared/domain/roles.server.ts:170-193 | Refused exactly without a name or key or when the key is taken; else one row more, custom, of the shape asked for, nowhere on the chart |
| `Organigrams.Organigram.DeleteRole` | app/shared/domain/roles.server.ts:384-424 | Deletion of a custom role without children, and its refusals |
| `Organigrams.Organigram.PlaceDefaultOrganigram` | app/shared/domain/setup.server.ts:121-151 | The placements in sequence give every built-in role its default place, and a non-empty chart is left alone |
| `ChartEffects.DefaultIsExact` | app/shared/domain/setup.server.ts:121-151 | An arranged chart is left alone; an empty one gets each built-in role at its parent and order, and no other row changes |
| `Organigrams.Organigram.SeedBuiltInRoles` | app/shared/domain/setup.server.ts:67-103 | Whatever the table held, every built-in role is there and flagged afterwards, and no other row was touched |
| `Organigrams.NewCongregation` | app/shared/domain/setup.server.ts:42-55 | Seeding an empty table and placing the default yields a sound chart: the initial state of every run |
| `Runs.DefaultIsSound` | app/shared/domain/setup.server.ts:121-151 | The default placement of seeded rows satisfies the whole invariant |
| `Safety.AttachKeepsCap` | app/shared/domain/role-tree.policy.ts:54-83 | Chain length, one and subtree height together bound the new depth of every descendant: an accepted attachment closes no cycle and keeps every chain within ten |
| `Safety.AttachKeepsSound` | app/shared/domain/organigram.server.ts:56-91 | Any attachment, accepted or refused, keeps the invariant |
| `Runs.RemoveKeepsSound` | app/shared/domain/organigram.server.ts:189-218 | Removal keeps the invariant, whatever hung below |
| `Runs.DeleteKeepsSound` | app/shared/domain/roles.server.ts:400-414 | Deletion keeps the invariant because the refused case had children |
| `Runs.CreateServiceKeepsSound` | app/shared/domain/organigram.server.ts:107-123 | Creation keeps the invariant, also when the attachment is refused |
| `Refusals.RefusedCreationLeavesRoleIff` | app/shared/domain/organigram.server.ts:107-123 | On a sound chart a refused creation changes the rows exactly when the role could be created and its attachment is refused at the top, to itself, or below a chain of ten; then it leaves that role, off the chart |
| `Refusals.RefusalWritesIff` | app/shared/domain/organigram.server.ts:56-301 | Of all chart operations a refused one changes the rows exactly when it is such a creation |
| `Refusals.ARefusedServiceStays` | app/shared/domain/organigram.server.ts:107-123 | On a new congregation's chart a service asked for at the top is refused and its role stays |
| `Runs.StepKeepsSound` | app/shared/domain/organigram.server.ts:56-301 | Each of the eight operations keeps the invariant |
| `Runs.EveryRunFromDefaultIsSound` | app/shared/domain/role-tree.policy.ts:20-52 | From the default placement every sequence of operations keeps the relation acyclic, chains within ten, unplaced roles and rosters parentless, posts under the committee, and the committee under the elders or at the top |
| `Runs.RemovalContractsTree` | app/shared/domain/organigram.server.ts:189-208 | Between remaining roles ancestry is unchanged; descendants of the removed role rise exactly one level; every other chain keeps its length |
| `Grafting.MovingRowsMovesSubtrees` | app/shared/domain/organigram.server.ts:221-247 | After an accepted move under a chart role the tree is the old one with the moved subtree cut out, unchanged, and grafted as the last child |
| `Grafting.MovedRanksLast` | app/shared/domain/organigram.server.ts:36-47 | The order handed out ranks the moved role strictly after every other child |
| `Reordering.ReorderIsTransposition` | app/shared/domain/organigram.server.ts:260-291 | Whatever ties or gaps the old orders held, the siblings in their stored order either stay, and then no row changes, or exchange exactly the role with its neighbour; then orders are 5, 10, 15 and so on, ties by name no longer matter, and no other row is touched |
| `Reordering.OppositeRestores` | app/shared/domain/organigram.server.ts:260-291 | The opposite arrow restores the sequence |
| `Arrows.ShownIsTheTree` | app/shared/domain/organigram.queries.ts:93-121 | On an acyclic chart each role stands in the assembled tree in exactly the list the arrow theorems speak of: its parent's children, or the roots when that parent is not on the chart |
| `Arrows.ReorderIsShown` | app/shared/domain/organigram.server.ts:260-291 | After an effective reorder the shown list holds the siblings of one parent in the exchanged order |
| `Arrows.ArrowsWorkIff` | app/shared/domain/organigram.server.ts:272-285 | Every arrow of a shown list exchanges its role with the neighbour shown exactly when the list's roles name one parent and roles of equal order come in name order |
| `Arrows.AnArrowCanDoNothing` | app/shared/domain/organigram.server.ts:189-291 | A removal leaves two siblings of equal order for which the arrow that should lift the second does nothing |
| `Arrows.AStrayCannotMove` | app/shared/domain/organigram.server.ts:272-285 | A role added under an off-chart parent, which is accepted, is shown second among the roots and its arrow up does nothing |
| `Panel.FlattenIsPreorder` | app/shared/domain/organigram-layout.ts:288-299 | The flat list reads the tree in preorder, each entry once |
| `Panel.BuildMoveTargets` | app/features/congregation/server/organigram-panel.server.ts:71-75 | The targets are the entries that are neither the selected role nor below it in the list |
| `Panel.FlatListIsRight` | app/shared/domain/organigram-layout.ts:288-299 | Each entry names its node and its parent's entry and is indented one level more than that |
| `Panel.TargetsAreTheAcyclicOnes` | app/features/congregation/server/organigram-panel.server.ts:71-75 | On an acyclic chart the page withholds exactly the targets the cycle check refuses |
| `Sheet.NothingIsLostOnTheSheet` | app/shared/domain/organigram-layout.ts:75-135 | For any rows with unique ids and keys every chart role is printed exactly once, nothing else is, and block ids are pairwise distinct |
| `SheetOrder.SheetIsInOrder` | app/shared/domain/organigram-layout.ts:103-135 | Masthead, committee, its posts' branches in their order, its other services, the rosters' own, other roots: branches of one kind as the tree has them, in each branch the line of leaves before the containers and these in the tree's order |
| `SheetOrder.ChartSheetIsInOrder` | app/shared/domain/organigram-layout.ts:103-135 | The same for the sheet of any chart rows |
| `SheetOrder.PostsInOrder` | app/shared/domain/organigram-layout.ts:109-111 | The committee's block lists exactly its posts, coordinator, secretary, service overseer |
| `Layout.SheetPrintsTree` | app/shared/domain/organigram-layout.ts:75-135 | For any tree with one committee the sheet prints each node as often as it stands in the tree |
| `Headers.SheetHeadersAreRight` | app/shared/domain/organigram-layout.ts:78-132 | For any tree that shows no role twice every band answers to the node its lines hang under, by its name, but to the elder roster as the « Collège des anciens »; bands of no branch have no header |
| `Headers.ChartHeadersAreRight` | app/shared/domain/organigram-layout.ts:78-132 | The same for the sheet of any chart rows |
| `Sheet.SheetWriter.Write` | app/shared/domain/organigram-layout.ts:75-135 | Pushing blocks from the recursive closures yields that sheet |
| `Sheet.GroupLayout` | app/shared/domain/organigram-layout.ts:244-256 | The grouped view keeps rosters, claimed bands and legacy blocks, each once and in order, and the last committee block; sections are maximal runs of one header |
| `Sheet.SheetHasOneCommittee` | app/shared/domain/organigram-layout.ts:75-135 | Whatever the tree, the sheet has at most one committee block |
| `Sheet.GroupedSheetKeepsAll` | app/shared/domain/organigram-layout.ts:244-256 | So the grouped view of any sheet holds each of its blocks exactly as often as the sheet does |
| `ServiceLines.BandAdjoints` | app/shared/domain/organigram-layout.ts:193-199 | The filter that grows its own set keeps each person's first appearance, leaders left out |
| `ServiceLines.FirstOnesAreOnce` | app/shared/domain/organigram-layout.ts:193-199 | Nobody is kept twice, nobody already seen is kept, and nobody else is dropped |
| `ServiceLines.ServiceParts` | app/shared/domain/organigram-layout.ts:184-217 | A line prints its own holders when it has no rows, and else its leaders, then once each the adjoints among it and the leaders beneath, and the rows that are teams |
| `ServiceLines.BandLineNamesEveryone` | app/shared/domain/organigram-layout.ts:184-217 | A band's line names each leader, each deputy and each leader beneath it, and nobody twice |
| `ServiceLines.BandLineIsRight` | app/shared/domain/organigram-layout.ts:174-217 | A line's people are exactly those who lead or assist the band or lead a row beneath it, its own leaders first; its teams are exactly the rows that are no personal role, whose leaders are among the people |
| `ServiceLines.LinesPrintTheBands` | app/shared/domain/organigram-layout.ts:228-232 | The service lines of a section stand for exactly the roles its bands print, in order |
| `Matrix.ChartPreorder` | app/features/congregation/server/role-matrix.server.ts:58-77 | On any chart rows, cyclic ones included, the visited-set walk reads in the order of the assembled tree |
| `Matrix.ForestOrderIgnoresHolders` | app/shared/domain/organigram.queries.ts:76-122 | That order does not depend on who sits where, so the page's tree reads alike |
| `Matrix.FindBranch` | app/features/congregation/server/role-matrix.server.ts:80-89 | The upward walk ends on any rows and finds the branch |
| `Matrix.BranchIsNearestPost` | app/features/congregation/server/role-matrix.server.ts:79-89 | The branch is the nearest committee post among the role and its ancestors |
| `Matrix.EveryColumnOnce` | app/features/congregation/server/role-matrix.server.ts:51-122 | Each custom role that qualifies is a column exactly once, in the band of its branch, and nothing else is; a role with a plain member is never hidden |
| `MatrixColumns.BuildMatrixGroups` | app/features/congregation/server/role-matrix.server.ts:38-122 | The groups pushed are the matrix read from the rows: a custom role is a column exactly when it has a plain member, or is a group off the chart or without a role below it there; each once, by name and shape, in the band of the nearest post above it; bands in order, none empty, collapsed as asked; columns in the tree's reading order, off the chart by name |
| `MatrixColumns.ChartLeavesAreLeaves` | app/features/congregation/server/role-matrix.server.ts:45-56 | On an acyclic chart the roles without one below them are the leaves of the assembled tree |
| `SeatBooks.SeatBook.SeatMember` | app/shared/domain/organigram-seats.server.ts:76-166 | The checks in their order, the seat written, outgoing titulaires unseated, the committee reconciled; nothing written on a refusal |
| `AccessRules.SeatingIsRight` | app/shared/domain/organigram-seats.server.ts:83-128 | Every seating is decided as the rows say: who is an administrator, what the seat's roles grant, whom a handover unseats, who is an elder; the first cause in this order is the denial |
| `AccessRules.OnlyEldersLead` | app/shared/domain/organigram-seats.server.ts:119-128 | An accepted titulaire of a post is an elder; a request that passes the earlier checks is denied for that exactly when the elder assignment is missing; an adjoint never is |
| `AccessRules.EffectiveIs` | app/shared/auth/permissions.server.ts:75-89 | An account can do what its roles grant on either path, and all of the catalogue when one of them grants can-do-anything |
| `SeatBooks.SeatBook.UnseatMember` | app/shared/domain/organigram-seats.server.ts:169-208 | Likewise for unseating |
| `AccessEffects.UnseatingIsRight` | app/shared/domain/organigram-seats.server.ts:177-190 | Every unseating is decided as the rows say |
| `AccessEffects.UnseatingIsExact` | app/shared/domain/organigram-seats.server.ts:192-198 | The one seat is gone, no other changed, and a post's committee is reconciled |
| `SeatBooks.SeatBook.CheckOutgoing` | app/shared/domain/organigram-seats.server.ts:105-118 | The loop over outgoing titulaires refuses exactly when one may not be changed, or is the last administrator |
| `SeatBooks.SeatBook.SyncServiceCommitteeMembers` | app/shared/domain/service-committee.server.ts:24-73 | Inserting the missing and deleting the extra makes the committee the posts' titulaires and touches no other seat |
| `AccessRules.ReconcileIsExact` | app/shared/domain/service-committee.server.ts:24-73 | With a committee and a post the committee's seats become those of the accounts leading a post, kinds kept and new ones plain; without, nothing changes |
| `SeatBooks.SeatBook.AddUserToRole` | app/shared/domain/roles.server.ts:294-335 | The insertion and its refusals |
| `AccessEffects.AdditionIsExact` | app/shared/domain/roles.server.ts:294-326 | When it is refused, and that an accepted addition leaves the account seated, as it was or as a plain member, and no other seat changed |
| `SeatBooks.SeatBook.RemoveUserFromRole` | app/shared/domain/roles.server.ts:337-382 | The deletion and its refusals, a leadership seat included |
| `AccessEffects.RemovalIsExact` | app/shared/domain/roles.server.ts:337-372 | When it is refused, and that an accepted removal leaves the account off the role and no other seat changed |
| `SeatBooks.SeatBook.SetUserCustomRoleAssignments` | app/shared/domain/roles.server.ts:426-506 | The two diff loops and the writes make the assignable roles held those wanted, leaving every other seat |
| `AccessEffects.FormIsRight` | app/shared/domain/roles.server.ts:434-486 | When the form is refused, from the rows alone |
| `AccessEffects.FormIsExact` | app/shared/domain/roles.server.ts:434-492 | After an accepted form the account sits on exactly the offered roles it asks for, and every other seat stays |
| `SeatBooks.SeatBook.UpdateRolePermissions` | app/shared/domain/roles.server.ts:266-292 | The change of a role's permissions, keys outside the table dropped |
| `AccessEffects.PermissionsAreExact` | app/shared/domain/roles.server.ts:266-292 | When a change is refused, and that after an accepted one the role grants exactly the wanted permissions of the table and the ones outside it that it had; no other grant, seat or row changes |
| `AccessEffects.ShapeIsExact` | app/shared/domain/organigram.server.ts:135-168 | The flag is set as asked unless the role is built in or two titulaires hold it; nothing else changes |
| `SeatBooks.SeatBook.DeleteRole` | app/shared/domain/roles.server.ts:384-414 | The deletion and its refusals; the role's seats, assignments and grants go with it |
| `AccessEffects.DeletionIsExact` | app/shared/domain/roles.server.ts:384-414 | Refused exactly on built-in roles and on parents; else the role goes with its seats, assignments and grants, and nothing else |
| `SeatBooks.Missing` | app/shared/domain/roles.server.ts:452-464 | The diff loop collects exactly the wanted ids not held |
| `Seats.RefusalWritesNothing` | app/shared/domain/organigram-seats.server.ts:76-127 | A refused request leaves everything as it was |
| `Seats.SyncEffect` | app/shared/domain/service-committee.server.ts:24-73 | From any state the reconcile leaves the committee equal to the titulaires and changes no other seat and no leader |
| `Seats.RunKeepsOneTitulaire` | app/shared/domain/organigram-seats.server.ts:90-154 | Over every run of the eight operations a personal role never has two titulaires |
| `Seats.StepKeepsOneTitulaire` | app/shared/domain/organigram.server.ts:154-164 | The same for each operation, the change of a role's shape included |
| `Seats.PostSeatingPutsInStep` | app/shared/domain/organigram-seats.server.ts:151-154 | From any drifted state a successful seating or unseating on a post leaves the committee equal to the titulaires |
| `Seats.RunKeepsStep` | app/shared/domain/service-committee.server.ts:7-23 | A run that never aims at the committee role keeps that equality |
| `Seats.SeatingHandsOver` | app/shared/domain/organigram-seats.server.ts:130-150 | On any role, the committee included, a seating sets the one seat, unseats exactly the other titulaires of a personal role, keeps all adjoints, and changes seats on no other role but the committee when the role is a post |
| `Seats.CheckedRolesBound` | app/shared/domain/role-grant-limits.server.ts:23-46 | Changing seats only on roles whose permissions the actor holds bounds everyone's change, even through can-do-anything |
| `Delegation.EveryChangeIsBounded` | app/shared/domain/roles.server.ts:280-291 | Every permission by which any account's effective set differs after an accepted change is one the actor holds, unless the request reconciles silently or deletes a role whose holders lose what the actor lacks: both can be checked before the call |
| `Delegation.SilentMoves` | app/shared/domain/organigram-seats.server.ts:97-154 | A request reconciles silently exactly when the reconcile after it moves someone on or off the committee while only the post's permissions were compared |
| `Delegation.SilentMeansDemotion` | app/shared/domain/organigram-seats.server.ts:97-117 | With the committee in step a request reconciles silently exactly when it re-seats a titulaire as adjoint of the one post they lead |
| `Delegation.SilentReconcileEscapes` | app/shared/domain/organigram-seats.server.ts:51-67 | For any such request there are grants under which it is accepted and changes a permission the actor lacks |
| `Delegation.ADemotionEscapes` | app/shared/domain/organigram-seats.server.ts:51-117 | A congregation in step where an actor who may only manage roles re-seats the coordinator as adjoint, is accepted, and takes a permission from them that the actor lacks |
| `Delegation.SeatingBoundedIffNotSilent` | app/shared/domain/organigram-seats.server.ts:51-117 | For an actor lacking some permission a seating is bounded under all grants exactly when it does not reconcile silently |
| `Delegation.PermissionsAreBounded` | app/shared/domain/roles.server.ts:266-292 | A change of a role's own permissions is bounded for every account holding it |
| `Delegation.DeletionBoundedIff` | app/shared/domain/roles.server.ts:384-414 | A deletion is bounded exactly when the actor holds all that the role's holders do not keep by other roles, through can-do-anything too |
| `Delegation.ADeletionEscapes` | app/shared/domain/roles.server.ts:384-414 | A congregation where an actor who may only manage roles takes a permission away by deleting a role |
| `LastAdmins.LastAdminGoesIff` | app/shared/auth/permissions.server.ts:180-189 | An accepted request leaves no administrator exactly when it empties, through a post, the committee that makes all of them administrators, or strips or deletes the only role that does; the matrix, the account form and the change of shape never do |
| `LastAdmins.UnseatLocksOutIff` | app/shared/domain/organigram-seats.server.ts:169-208 | The same for an unseating: no titulaire with an account is left, and the only administrators are so by the committee or by the seat given up |
| `LastAdmins.TheLastAdminIsUnseated` | app/shared/domain/organigram-seats.server.ts:169-208 | A congregation in step whose one administrator, by the committee, is unseated from the post |
| `LeadershipSeats.FormUnseatsIff` | app/shared/domain/roles.server.ts:426-506 | The account form takes a leadership seat away exactly when it leaves out a role the account leads or deputises on |
| `LeadershipSeats.MatrixSparesLeadership` | app/shared/domain/roles.server.ts:361-365 | Adding to and removing from a role in the matrix never takes a leadership seat away |
| `LeadershipSeats.AFormUnseatsALeader` | app/shared/domain/roles.server.ts:361-365 | One seat that the matrix refuses to take and the form takes |
| `CommitteeAdoption.AdoptServiceCommittee` | app/shared/domain/organigram-adoption.server.ts:183-256 | Every check before the first write, then place, carry over and reconcile; a seat collision undoes everything |
| `CommitteeAdoption.ValidateChoices` | app/shared/domain/organigram-adoption.server.ts:194-199 | The loop refuses exactly an unknown post or a repeated one, the first met |
| `CommitteeAdoption.ResolveMappings` | app/shared/domain/organigram-adoption.server.ts:222-232 | All mappings in order, or the first refusal |
| `CommitteeAdoption.CarryOver` | app/shared/domain/organigram-adoption.server.ts:117-161 | Permissions copied, one holder moved, children re-hung, the old role taken off |
| `AdoptionEffects.ChoicesAreRight` | app/shared/domain/organigram-adoption.server.ts:194-199 | Accepted exactly when each choice names the committee or one of its posts, none twice; else the first that does not says why |
| `AdoptionEffects.ResolutionIsRight` | app/shared/domain/organigram-adoption.server.ts:222-232 | Accepted exactly when each choice's post and role exist and the role is no post; else the first that does not says why |
| `AdoptionEffects.MappingsAreRight` | app/shared/domain/organigram-adoption.server.ts:219-232 | Each choice that takes a role over is one mapping, in the order of the choices |
| `AdoptionEffects.AdoptionIsRight` | app/shared/domain/organigram-adoption.server.ts:183-240 | Onto vacant posts the verdict is that of the first check that fails: choices, committee missing, committee in place, mappings, permissions the actor lacks |
| `AdoptionEffects.AdoptedRows` | app/shared/domain/organigram-adoption.server.ts:155-160 | Every row afterwards: the committee and its posts in place and order, a role taken over off the chart, what hung below it under its post, every other field and row as before |
| `AdoptionEffects.AdoptedAccess` | app/shared/domain/organigram-adoption.server.ts:117-151 | A role grants what it did and what the roles it takes over do; seats keep their kind and a new one off the committee is that of a titulaire; nothing else changes |
| `AdoptionEffects.IncomingIsFirst` | app/shared/domain/organigram-adoption.server.ts:138-144 | The first leader the query lists moves, or without one the first holder |
| `Adoption.AdoptionKeepsPeople` | app/shared/domain/organigram-adoption.server.ts:183-256 | Onto vacant posts, whatever order each query lists accounts in, no seat collision stops it; each post ends with at most one titulaire, the committee with exactly the titulaires; no account loses a granted permission nor, with grants drawn from the catalogue, an effective one; and whatever anyone gains the actor holds |
| `Adoption.PostsTakeTheirHolders` | app/shared/domain/organigram-adoption.server.ts:138-151 | Whatever order each query lists accounts in, each mapped post ends led by exactly the account its mapping moves: the old role's leader or else its first holder in the state the mappings before it led to, also when one role is taken over twice |
| `Adoption.TakenPostsAreFilled` | app/shared/domain/organigram-adoption.server.ts:136-151 | Where each query lists all holders of its role, a mapped post ends without a titulaire only when nobody is left on that role, and with one of the role's leaders if it has any |
| `Adoption.OthersStayBehind` | app/shared/domain/organigram-adoption.server.ts:138-151 | On every role that is neither post nor committee exactly those stay whom no mapping moved off it |
| `Adoption.RefusedAdoptionChangesNothing` | app/shared/domain/organigram-adoption.server.ts:217-221 | A refused adoption changes nothing |
| `Adoption.SoundChartRefusesAdoption` | app/shared/domain/organigram-adoption.server.ts:212-215 | On a sound chart the committee is already placed, so adoption is refused |
| `AdoptedTree.PlacementAnchors` | app/shared/domain/organigram-adoption.server.ts:241-251 | Placement hangs the committee under the elders and each post under it, and closes no cycle |
| `AdoptedTree.AcyclicUnlessElderIsTaken` | app/shared/domain/organigram-adoption.server.ts:155-159 | The adopted chart is acyclic exactly when no choice takes over the elder roster |
| `AdoptionExamples.TakingTheEldersClosesACycle` | app/shared/domain/organigram-adoption.server.ts:155-159 | A legacy chart and a choice, accepted, for which it is not |
| `AdoptedTree.CarriedChain` | app/shared/domain/organigram-adoption.server.ts:155-160 | After adoption a role's chain is its part below the nearest taken-over role followed by the chain of the post that took over |
| `AdoptedDepths.AdoptedDepth` | app/shared/domain/organigram-adoption.server.ts:155-160 | The elder roster not being taken over, the exact level every role ends at, computed on the chart before the call from its chain, the mappings and the placement |
| `AdoptedDepths.AdoptionKeepsCapIff` | app/shared/domain/organigram-adoption.server.ts:183-256 | The elder roster not being taken over, the adopted chart keeps the cap exactly when none of these levels passes ten, also where the chart before did not keep it |
| `AdoptedRuns.AdoptionIsSoundIff` | app/shared/domain/organigram-adoption.server.ts:183-256 | On a chart from before the committee, the elder roster not taken over, adoption establishes the whole invariant exactly under that condition |
| `AdoptedRuns.EveryRunFromAdoptionIsSound` | app/shared/domain/role-tree.policy.ts:20-52 | Every sequence of operations after such an adoption keeps the invariant |
| `AdoptionExamples.AdoptionCanExceedTheCap` | app/shared/domain/organigram-adoption.server.ts:155-160 | A legacy chart within the cap whose accepted adoption puts a role below a taken-over one at level eleven |
| `AdoptionExamples.BareAdoptionCanExceedTheCap` | app/shared/domain/organigram-adoption.server.ts:241-251 | A legacy chart within the cap whose adoption without any choice puts a role below a post at level twelve |
| `Scanning.SkipStringAt` | scripts/check-tenant-scoping.ts:180-190 | The loop finds the closing quote past backslash pairs, or the last character |
| `Scanning.MatchBalancedByCounting` | scripts/check-tenant-scoping.ts:160-178 | The counting loop ends on any text with the counting matcher's answer |
| `Scanning.MatchBalancedByStack` | scripts/check-permission-coverage.ts:82-108 | The stack loop ends on any text with the stack matcher's answer |
| `Scanning.BothMatchersAgree` | scripts/check-permission-coverage.ts:82-108 | On every properly nested text with quoted strings and escapes both return the index just past the partner of the opening bracket |
| `Scanning.BothMatchersAgreeInContext` | scripts/check-tenant-scoping.ts:160-178 | The same for any text before and after |
| `MatcherAgreement.MatchersAgreeIff` | scripts/check-permission-coverage.ts:82-108 | On any text both give an opening bracket the same answer exactly when every closing bracket up to the partner is the expected one, or the running count never returns to zero |
| `MatcherAgreement.NestsIffText` | scripts/check-tenant-scoping.ts:160-178 | The closing brackets are the expected ones exactly when a bracketed text of the grammar stands there, quoted strings and escapes included |
| `MatcherAgreement.MatchersPartOnMismatch` | scripts/check-permission-coverage.ts:98-106 | A mismatched text on which they differ |
| `MatcherAgreement.QuotesHideBrackets` | scripts/check-permission-coverage.ts:78-90 | A bracket in quotes of any of the three kinds counts for neither matcher |
| `WhereScanning.NextTopLevelComma` | scripts/check-tenant-scoping.ts:231-245 | The loop ends on any text with the next comma outside brackets and strings, or the end |
| `WhereScanning.TopLevelEntries` | scripts/check-tenant-scoping.ts:248-276 | The generator ends on any text with its properties |
| `WhereScanning.ObjectBodiesIn` | scripts/check-tenant-scoping.ts:279-295 | The loop ends on any text with the outermost object bodies |
| `WhereScanning.AnalyzeWhere` | scripts/check-tenant-scoping.ts:304-320 | The recursive analysis ends on any text, malformed or not |
| `WhereRecovery.EntriesOfBody` | scripts/check-tenant-scoping.ts:248-276 | On every body of the grammar the generator yields its keys and values in order |
| `WhereRecovery.BodiesOfCond` | scripts/check-tenant-scoping.ts:279-295 | In every operand the objects found are its outermost ones, whatever round or square brackets stand around them |
| `WhereRecovery.WhereIsRecovered` | scripts/check-tenant-scoping.ts:297-320 | Each flag is set exactly when its key occurs at the top level or under a chain of combinators, never inside a relation filter |
| `IsoWeeks.WeekOfDay` | scripts/dora-metrics.ts:82-92 | The days from one ISO year's first Monday to the next one's are numbered by sevens |
| `IsoWeeks.NamedRightlyIff` | scripts/dora-metrics.ts:82-92 | The code names a day's ISO week exactly when neither the day nor its Thursday falls in a year from 0 to 99 |
| `IsoWeeks.WeeksFillTheYear` | scripts/dora-metrics.ts:356-360 | A year has 53 weeks when it starts on a Thursday, or is a leap year starting on a Wednesday, else 52 |
| `IsoWeeks.TurnOf2020` | scripts/dora-metrics.ts:82-92 | 3 January 2021 is a Sunday in week 53 of 2020, and the day after begins week 1 of 2021 |
| `IsoWeeks.WeekBoundaries` | scripts/dora-metrics.ts:341-365 | Accepts a label exactly when its year is at least 1000 and its week exists, and returns its Monday-to-Monday window |
| `IsoWeeks.WindowNamesItsInstants` | scripts/dora-metrics.ts:82-92 | Outside the years `Date.UTC` misreads, an instant is named by a week exactly when it lies in the week's window |
| `IsoWeeks.WindowsAbut` | scripts/dora-metrics.ts:349-355 | The week after an existing one exists and their windows abut |
| `IsoWeeks.PreviousWeekIsClosed` | scripts/dora-metrics.ts:372-375 | Outside those years, the default target is the week just before the current one, closed by now |
| `IsoWeeks.WeeklyCountsAddUp` | scripts/dora-metrics.ts:96-102 | Weekly deploy counts over consecutive weeks add up to the count over the whole stretch |
| `IsoWeeks.FrequencyIsCount` | scripts/dora-metrics.ts:96-102 | The deploy frequency is the number of commits made in the window |
| `IsoWeeks.FixToFeatRatio` | scripts/dora-metrics.ts:114-124 | The loop counts exactly the fixes and the feats in the window; no ratio without feats |
| `IsoWeeks.KindCountIsCount` | scripts/dora-metrics.ts:114-124 | The fixes and feats counted are the commits of that kind made in the window |
| `WallClocks.PrintsBackIffItExists` | app/shared/utils/event-time.ts:15-22 | Combining a date and time prints back as them exactly when the zone's clock shows them at some instant |
| `WallClocks.SkippedTimeIsShifted` | app/shared/utils/event-time.ts:15-22 | A skipped time comes out moved by exactly the jump between the two offsets |
| `WallClocks.RepeatedTimeIsChosen` | app/shared/utils/event-time.ts:15-22 | A repeated time comes out as the occurrence whose offset is in force at the UTC reading |
| `WallClocks.CombinedPrintIsTheInstant` | app/shared/utils/event-time.ts:69-93 | Unless the printed time occurs twice, combining an instant's printed form returns the start of its minute, and that instant shows the printed time, exactly when the offset has not changed since that start |
| `WallClocks.SetHoursKeepsTheDay` | app/shared/utils/event-time.ts:24-38 | Setting the hour keeps the local day and shows the time exactly when that time exists |
| `RateLimits.Redis.IncrementScript` | app/features/authentication/server/rate-limit.server.ts:38-44 | INCR, then EXPIRE on a count of one |
| `RateLimits.Redis.DecrementScript` | app/features/authentication/server/rate-limit.server.ts:48-54 | DECR, then DEL on a count of zero or less |
| `RateLimits.Redis.GuardLoginAttempt` | app/features/authentication/server/rate-limit.server.ts:66-88 | The per-IP check, then the global one only if it passed |
| `RateLimits.Redis.ReleaseLoginAttempt` | app/features/authentication/server/rate-limit.server.ts:90-97 | Both counters of an attempt are taken down after a success |
| `RequestsAlone.LoginCounts` | app/features/authentication/server/rate-limit.server.ts:66-88 | The address's counter goes up by one, the common one only when the address is within its limit, each expiring one window after it was new; limited exactly past a limit |
| `RequestsAlone.ReleaseUndoesAttempt` | app/features/authentication/server/rate-limit.server.ts:89-97 | A release takes back exactly what an admitted attempt added |
| `RequestsAlone.AttemptAlone` | app/features/authentication/server/rate-limit.server.ts:66-88 | An attempt run alone among the concurrent steps leaves the store and answer of the guard |
| `RequestsAlone.ReleaseAlone` | app/features/authentication/server/rate-limit.server.ts:89-97 | And a release those of the release |
| `RequestsAlone.GuardsStart` | app/features/authentication/server/rate-limit.server.ts:66-159 | Which counters each guard checks, and in which order: a login the client's address, then the common one; a second factor the account's; a password reset the client's, then the mailbox's by window and by day |
| `RequestsAlone.ResetAlone` | app/features/authentication/server/rate-limit.server.ts:119-126 | A successful second factor deletes that account's counter and nothing else |
| `RequestsAlone.OutageDenies` | app/features/authentication/server/rate-limit.server.ts:60-87 | When the store cannot be reached, a guard at any of its checks denies; a release is dropped; nothing is counted |
| `RequestsAlone.CheckAdmitsIff` | app/features/authentication/server/rate-limit.server.ts:38-150 | Under any interleaving a check counts one more and lets the request on exactly within its allowance, which for resets is 10, 3 and 20 |
| `RateLimits.EventKeeps` | app/features/authentication/server/rate-limit.server.ts:38-58 | Each atomic step of any concurrent request, failure or expiry keeps the counter invariant |
| `RateLimits.EveryInterleavingIsBounded` | app/features/authentication/server/rate-limit.server.ts:38-97 | Under every interleaving each stored counter is at least 1 and expires one window after its creation, admissions less decrements stay within the limit in each lifetime, and a counter's admissions cover the next checks run on their strength |
| `RateLimits.ExpiryIsSetOnce` | app/features/authentication/server/rate-limit.server.ts:38-44 | A counter that stays keeps its expiry; a new one holds 1 and expires one window from now |

## Left out

- Prisma, transactions, row-level security, Redis and Intl themselves: rows, counters and offsets are modelled directly, and unique constraints are preconditions.
- Audit writes, logging, e-mails, React components, routes, sessions: no behaviour the properties depend on.
- Display names and translations: a name with a collation rank stands for them, and `localeCompare` is a total preorder.
- The order in which the database returns unsorted rows: rows are kept as a sequence and every theorem holds for any sequence; adoption takes an arbitrary order of accounts for each query.
- `seatLabel`, `responsibilityEyebrow`, slug hints and `proposeCommitteeAdoption`: presentation and suggestions only.
- 32-bit overflow of `organigramOrder`: orders are unbounded integers.
- Seat kinds other than leader, deputy and member, and holder fields that are only printed: a holder carries its last name as a collation rank.
- Archive import, account deletion and anonymisation, pioneer enrolments and the synchronisation of identity roles: other features that write the same tables.
- `extractTopLevelWhere` and the regular expressions around the scanners: the scanners are proved on the texts handed to them. Characters are Unicode scalars, not UTF-16 units.
- `computeLeadTime`, `median` and the report: single passes with nothing across functions.
- IsoWeeks.WeekBoundaries: takes the label already split into year and week; the label's pattern is not modelled. Days are counted from year 1 instead of 1970.
- WallClocks.PrintsBackIffItExists: dates are day numbers and times are minutes of the day; their digits are not modelled, nor are offsets that are not whole minutes, which the code's pattern would cut.
- RateLimits.Redis.GuardLoginAttempt: the two-factor and password-reset guards run the same checks and appear as requests of the concurrent model only.
