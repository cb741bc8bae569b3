# Partidito: team balancer and roster state, in Dafny

Partidito splits a pool of players for an informal football match into two
teams, "Equipo 1" and "Equipo 2". This project models two parts of it:

- **The balancing engine** (`utils/balancer.ts`).
  - It stably sorts a copy of the pool by goalkeeping rating, best first.
  - The best keeper seeds team A and the second best seeds team B.
  - It sorts the rest by field skill, the mean of the DEF, MID and FWD ratings.
  - It places those players one at a time. A player joins the smaller team. When the teams are the same size, the player joins the team whose skill sum is lower, and team A wins ties.
  - It reports each team's total and average skill and the absolute difference of the totals.
- **The roster screen's state** (`App.tsx`).
  - This covers the stored roster's migration, adding and deleting players, and the position buttons of the add form.
  - It also covers selecting players and the guard before a match is generated.

Modules:

- `Types` (`types.dfy`) holds the records.
  - `Player` carries a `positionSkills` record with all four ratings, as the balancer reads them.
- `StableSort` (`stable_sort.dfy`) models the JavaScript stable sort with a descending comparator.
  - `SortDescending` is an in-place insertion sort on an array.
  - It is proved equal to the functional `SortDesc`.
  - `SortDesc` is proved sorted, a permutation of its input and stable: equal keys keep their input order.
- `Balancer` (`balancer.dfy`) models the engine.
  - `GenerateBalancedTeams` is the procedure: array sorts, then a loop that extends the two teams.
  - It is proved equal to the functional specification `BalancedTeams`.
  - The partition, size, keeper, ordering and placement properties are proved about `BalancedTeams`.
- `MissingRatings` (`missing_ratings.dfy`) models the keeper sort's comparator on records whose ratings may be missing, for the finding below.
- `App` (`app.dfy`) models the component state as the class `AppState`.
  - Its fields are `players`, `selected`, `newName`, `newSkill`, `newPositions` and `matchResult`.
  - Each handler is a method. The pure pieces of the handlers are functions: the migration `map`, the position toggle and the selection `filter`.

Ratings and skills are Dafny `real` numbers, which are exact rationals. So the division by 3 in `getFieldSkill` and the averages are exact, and the field-skill order is the order of DEF+MID+FWD sums. The engine works on values, so the caller's list is never reordered. In the source this holds because the sort runs on a copy, `[...availablePlayers]`.

## Model

| member | source | states |
|---|---|---|
| StableSort.InsertDesc | utils/balancer.ts:31 | inserting one element into a list gives a list exactly one longer |
| StableSort.SortDesc | utils/balancer.ts:31 | the sorted list has exactly the length of its input |
| StableSort.InsertDescPermutation | utils/balancer.ts:31 | inserting adds exactly the inserted element to the multiset of elements |
| StableSort.SortDescPermutation | utils/balancer.ts:31 | the sort is a permutation: same multiset as its input |
| StableSort.InsertDescBounded | utils/balancer.ts:31 | a lower bound on every key survives an insertion |
| StableSort.InsertDescSorted | utils/balancer.ts:31 | inserting into a non-increasing list keeps it non-increasing |
| StableSort.SortDescSorted | utils/balancer.ts:31 | the sort's output is non-increasing in the key, as the comparator `key(b) - key(a)` asks |
| StableSort.WithKeyAppend | utils/balancer.ts:31 | the elements with one key value, taken from a concatenation, are those from each part in turn |
| StableSort.InsertDescWithKey | utils/balancer.ts:31 | insertion puts the new element after every element with the same key |
| StableSort.SortDescStable | utils/balancer.ts:31 | stability: for every key value, the elements carrying it come out in their input order |
| StableSort.InsertDescHead | utils/balancer.ts:31 | after inserting into a sorted list, the head is the new element exactly when the list was empty or its head has a smaller key |
| StableSort.SortDescHead | utils/balancer.ts:31 | the first sorted element is the earliest input element with the largest key |
| StableSort.InsertDescAt | utils/balancer.ts:31 | the inserted element lands right after the last element whose key is at least its own |
| StableSort.InsertAt | utils/balancer.ts:31 | one in-place insertion step turns the array prefix into `InsertDesc` of the old prefix and leaves the rest alone |
| StableSort.SortDescending | utils/balancer.ts:31 | the in-place sort leaves the array holding exactly `SortDesc` of its old contents |
| Balancer.SumSkill | utils/balancer.ts:6 | the `reduce` sum starts from 0 for an empty team; its properties are the `SumSkill…` lemmas below |
| Balancer.SumSkillAppend | utils/balancer.ts:6 | the skill sum of a concatenation is the sum of the parts' sums |
| Balancer.SumSkillPair | utils/balancer.ts:6 | the skill sums of one-player and two-player teams |
| Balancer.SumSkillPermutation | utils/balancer.ts:6 | reordering players leaves their skill sum unchanged |
| Balancer.SumSkillBounds | utils/balancer.ts:6 | if every skill lies in [lo, hi], the sum lies in [lo·n, hi·n] |
| Balancer.CalculateTeamStats | utils/balancer.ts:3-13 | name and players are returned unchanged; the total is the skill sum; the average is 0 for no players and otherwise times the count gives the total |
| Balancer.AverageWithinRange | utils/balancer.ts:11 | a non-empty team's average lies within the range of its members' skills |
| Balancer.SkillDifference | utils/balancer.ts:79 | the difference is non-negative and is one of the two signed differences of the totals, so it is their absolute value |
| Balancer.SkillDifferenceSymmetric | utils/balancer.ts:79 | swapping the teams does not change the difference |
| Balancer.FieldSkill | utils/balancer.ts:15-18 | field skill lies between the lowest and highest of the DEF, MID and FWD ratings |
| Balancer.GoalkeeperRating | utils/balancer.ts:31 | the keeper sort's key is the GK entry of `positionSkills` |
| Balancer.Place | utils/balancer.ts:57-70 | the player is appended to exactly one team and nothing already placed moves; the smaller team gets the player; at equal sizes team A gets them exactly when A's skill sum is at most B's |
| Balancer.PlaceKeepsSizesWithinOne | utils/balancer.ts:60-64 | one placement keeps the team sizes within one of each other |
| Balancer.Distribute | utils/balancer.ts:50-71 | the pass only appends to each team, and the sizes grow by exactly the number of field players |
| Balancer.DistributePartition | utils/balancer.ts:50-71 | every field player ends up in exactly one team, with the seeds kept |
| Balancer.DistributeSizes | utils/balancer.ts:60-64 | the sizes stay within one of each other through the whole pass |
| Balancer.DistributeKeysAtMost | utils/balancer.ts:50-71 | an upper bound on a key that holds for the field players and for each team's tail still holds for the tails afterwards |
| Balancer.DistributeSortedTails | utils/balancer.ts:47-71 | fed players in non-increasing field skill, each team receives them in non-increasing field skill |
| Balancer.KeeperOrder | utils/balancer.ts:31 | the copy sorted by goalkeeping rating has the pool's length; `KeeperOrderFacts` proves it a sorted permutation |
| Balancer.SeedKeepers | utils/balancer.ts:34-44 | team A gets one seed when there is at least one player and team B one when there are at least two; the seeds followed by `AfterKeepers` rebuild the whole keeper ordering |
| Balancer.AfterKeepers | utils/balancer.ts:35 | `slice(2)`: everything after the first two, index for index, and nothing for pools of fewer than two |
| Balancer.FieldOrder | utils/balancer.ts:47 | the sorted field players number two fewer than the pool, or none |
| Balancer.Teams | utils/balancer.ts:29-71 | the two final teams together hold as many players as the pool |
| Balancer.BalancedTeams | utils/balancer.ts:20-81 | the teams are named "Equipo 1" and "Equipo 2"; each total is its team's skill sum; the difference is the absolute difference of the totals |
| Balancer.KeeperOrderFacts | utils/balancer.ts:31-47 | the keeper ordering is a sorted permutation of the pool; the field ordering is a sorted permutation of everyone after the first two |
| Balancer.EmptyPool | utils/balancer.ts:21-27 | no players gives two empty teams with zero totals and averages, and a difference of 0 |
| Balancer.BalancedTeamsPartition | utils/balancer.ts:29-80 | the two teams together are a permutation of the input, and the team totals add up to the pool's skill sum |
| Balancer.BalancedTeamsSizes | utils/balancer.ts:43-71 | the team sizes add up to the pool size and differ by at most one |
| Balancer.BalancedTeamsKeepers | utils/balancer.ts:31-44 | team A starts with the first of the stable goalkeeping order and team B with the second; a lone player is team A and team B is empty |
| Balancer.BestGoalkeepers | utils/balancer.ts:31-44 | team A's first player is the earliest input player with the highest goalkeeping rating; nobody else in either team rates above team B's first player |
| Balancer.BalancedTeamsFieldOrder | utils/balancer.ts:47-50 | in each team, the players after the keeper are in non-increasing field skill |
| Balancer.SinglePlayer | utils/balancer.ts:34-44 | one player gives team A = that player, an empty team B, and a difference equal to the player's skill in absolute value |
| Balancer.ExampleKeeperOrder | utils/balancer.ts:31 | a four-player pool ordered by goalkeeping rating |
| Balancer.ExampleTeams | utils/balancer.ts:31-71 | in the same pool, the stronger field player joins the weaker keeper's team and the last one evens the sizes |
| Balancer.FourPlayerExample | utils/balancer.ts:20-81 | the complete result for that pool, with a skill difference of 1 |
| Balancer.PlaceFieldPlayers | utils/balancer.ts:50-71 | the `forEach` loop, which re-sums both teams before each placement, computes exactly `Distribute` of the sorted field players from the seeded teams |
| Balancer.SortedCopy | utils/balancer.ts:31 | a fresh array holding the list in stable descending key order, as `[...ps].sort(cmp)` gives it |
| Balancer.SplitPool | utils/balancer.ts:29-71 | the keeper sort, the seeding, the field sort and the greedy pass together compute exactly `Teams` of the pool |
| Balancer.GenerateBalancedTeams | utils/balancer.ts:20-81 | the procedure returns exactly `BalancedTeams` of its input: a partition of the input into teams whose sizes add up and differ by at most one |
| App.MigratePositions | App.tsx:17 | an existing positions array is kept; otherwise a legacy single position becomes a one-element list; otherwise the list is `[MID]` |
| App.Migrate | App.tsx:15-18 | `{...p, positions}`: the id, the name, the skill and the ratings are kept, and `positions` becomes `MigratePositions` of the entry; the legacy `position` is dropped (see "## Left out") |
| App.MigrateAll | App.tsx:15-18 | the migration maps the stored roster entry by entry, in order: entry i keeps its id, name, skill and ratings, and its positions are `MigratePositions` of stored entry i |
| App.Store | App.tsx:37 | a saved entry has a `positions` array, and migrating it gives the player back; since the model's player has no legacy `position`, none is written (see "## Left out") |
| App.StoreAll | App.tsx:37 | the saved roster has one entry per player, in order, each migrating back to its player |
| App.LoadAfterSave | App.tsx:13-18 | a roster written back as the save effect writes it reloads unchanged |
| App.IsTrimWhiteSpace | App.tsx:43 | the characters `trim` removes (white space and line terminators) include no ASCII letter and no ASCII digit |
| App.TrimStart | App.tsx:43 | the result is a suffix of the input, everything dropped is white space, and it does not start with white space |
| App.TrimEnd | App.tsx:43 | the result is a prefix of the input, everything dropped is white space, and it does not end with white space |
| App.Trim | App.tsx:43 | `trim()` is a contiguous middle part of its input with only white space before and after it and, when non-empty, neither starts nor ends with white space |
| App.BlankIffWhiteSpace | App.tsx:43 | `!newName.trim()` holds exactly when every character of the name is white space |
| App.Without | App.tsx:64 | `filter(p => p !== pos)`: no copy of `pos` is left, every other position keeps its count, and the kept positions keep their order |
| App.TogglePosition | App.tsx:59-69 | an absent position is appended; the last remaining position is kept; otherwise every copy of a present one is removed, the rest keeping their order and count; a non-empty duplicate-free list stays so |
| App.TogglePositionTwice | App.tsx:59-69 | clicking an unselected position twice restores the list |
| App.WithoutLast | App.tsx:64 | filtering out a position just appended to a list without it gives the list back |
| App.SubsequenceMembers | App.tsx:64 | whatever a filter keeps was in its input |
| App.SubsequenceKeepsNoDuplicates | App.tsx:64 | a filter of a duplicate-free list is duplicate-free |
| App.ToggleId | App.tsx:80-87 | the clicked id's membership flips and no other id changes |
| App.ToggleIdTwice | App.tsx:80-87 | toggling the same id twice restores the selection |
| App.RosterIds | App.tsx:93 | `new Set(players.map(p => p.id))`: every roster player's id and only those, never more ids than players |
| App.FilterByIds | App.tsx:98 | the filter keeps every player that matches, with all its copies, drops every other player, and keeps roster order |
| App.WithoutId | App.tsx:72 | the roster after a deletion holds exactly the players whose id differs, every copy of each, in roster order |
| App.SelectedPlayers | App.tsx:98 | the players handed to the balancer are exactly the roster players whose id is selected, every copy of each, in roster order |
| App.DeleteKeepsSelectionInRoster | App.tsx:71-78 | after a deletion, the remaining selected ids still belong to roster players |
| App.ToggleKeepsSelectionInRoster | App.tsx:80-87 | toggling a roster id keeps the selection inside the roster |
| MissingRatings.KeeperRatingAsWritten | utils/balancer.ts:31 | reading the GK rating fails exactly when `positionSkills` is missing, and otherwise gives its GK entry |
| MissingRatings.InsertAsWritten | utils/balancer.ts:31 | an insertion step that does not throw adds exactly one element |
| MissingRatings.SortAsWritten | utils/balancer.ts:31 | a keeper sort that does not throw keeps the pool's length |
| MissingRatings.UnratedPlayerThrows | App.tsx:46-51 | as written: any pool of two or more players that holds a player without ratings makes the keeper sort throw |
| MissingRatings.FormPlayerThrows | App.tsx:46-51 | as written: one form-added player and one rated player make the keeper sort throw |
| MissingRatings.InsertRated | utils/balancer.ts:31 | on rated players, one insertion with the comparator as written succeeds and equals `InsertDesc` |
| MissingRatings.RatedPoolSorts | utils/balancer.ts:31 | when every player is rated, the keeper sort with the comparator as written never throws and equals `KeeperOrder` |
| MissingRatings.FormPlayerSorts | App.tsx:46-51 | corrected: the same pool, with the form's player given zero ratings, sorts without a throw |
| App.AppState.constructor | App.tsx:9-32 | the initial roster is the migrated stored roster, or empty; nothing is selected; the form shows '', 5 and [MID] |
| App.AppState.AddPlayer | App.tsx:41-57 | with a blank name or no positions nothing changes; otherwise exactly one new player is put at the head of the roster and the form resets to '', 5 and [MID]; the selection is unchanged and both state invariants are kept |
| App.AppState.ToggleNewPosition | App.tsx:59-69 | the form's positions become `TogglePosition` of the old ones and stay non-empty |
| App.AppState.DeletePlayer | App.tsx:71-78 | every entry with the id leaves the roster, the id leaves the selection, everything else is unchanged, and the selection stays inside the roster |
| App.AppState.ToggleSelection | App.tsx:80-87 | the selection becomes `ToggleId` of the old one; toggling a roster id keeps the selection inside the roster |
| App.AppState.SelectAll | App.tsx:89-95 | when the selection is as large as the roster it is cleared; otherwise it becomes exactly the roster ids; either way it lies inside the roster |
| App.AppState.GenerateMatch | App.tsx:97-105 | a match is generated exactly when at least two selected players are in the roster; it is then the balancer's result for them in roster order; otherwise the previous result stays |

## Left out

- Rounding. `toFixed(2)` and `parseFloat` on the totals, the averages and the difference (utils/balancer.ts:10-11, 79) are not modelled. Neither is the floating-point error of `/ 3` and the sums. All arithmetic is exact.
- Stamina. No stamina-weighted effective skill and no `useStamina` flag are modelled. The engine takes only the player list (utils/balancer.ts:20) and sums raw `skill` (utils/balancer.ts:57-58).
- Legacy `position`. The model's `Player` has no `position` field, so `Migrate` drops it and `Store` never writes it. The source keeps it through `...p` (App.tsx:15-18) and saves it again with the roster (App.tsx:37). Nothing reads it after migration.
- Derived fields. The rule that `skill` is the rounded mean of the four ratings, and the derivation of `positions` from them, are not modelled. Both fields are taken as given.
- Players added from the form. `handleAddPlayer` builds a player without `positionSkills` (App.tsx:46-51), and `types.ts` declares none. On their own, the modelled handlers and balancer then fail at the keeper comparator (utils/balancer.ts:31), which throws a TypeError for every pool of two or more that holds such a player, so `matchResult` is never set. In the running app the roster tab fails first: it renders every player with the full `PlayerCard` (App.tsx:245-250), whose stats grid reads `positionSkills[pos]` of the same missing record (components/PlayerCard.tsx:156). The roster card is not part of this model. The model gives such a player four zero ratings (`UnratedSkills`) instead; see "## Findings".
- Stored entries without ratings. `StoredPlayer.positionSkills` is required, although the app's own save (App.tsx:37) writes form-added players without one. Loading such an entry, and the migration's treatment of it, are not modelled.
- Side effects. Browser storage, `JSON.parse` and its failure path (App.tsx:10-22), `crypto.randomUUID()`, `alert` and the `preventDefault` call are not modelled.
  - The stored roster is a constructor parameter, already parsed.
  - The new id is a parameter of `AddPlayer`.
  - A refused generation is the result `false`.
  - The save effect (App.tsx:36-38) appears only as `StoreAll` in `LoadAfterSave`.
- Rendering. The JSX, the tab state `activeTab`, the form's input handlers and the components are not modelled.
- `utils/db.ts`, `utils/db-supabase.ts` and their tests are not part of this model.
- App.AppState.ToggleNewPosition: the promise that the list never becomes empty is stated only for a duplicate-free list, which every reachable state is (`FormValid`). A list holding one position twice would be emptied by the filter.
- App.AppState.ToggleSelection: keeping the selection inside the roster is stated only for ids that are in the roster or already selected. The screen only offers roster players.

## Findings

| source | as written | input that shows it | evidently intended | confidence | as-written member | corrected member |
|---|---|---|---|---|---|---|
| App.tsx:46-51 | `handleAddPlayer` builds a player with no `positionSkills`; the keeper comparator at utils/balancer.ts:31 reads `positionSkills[Position.GK]` of it and throws a TypeError, so the modelled `generateMatch` ends in an exception. In the running app the roster card (components/PlayerCard.tsx:156, not modelled) reads the same missing field while rendering the new player, and fails before "generate" can be reached | for the handlers and balancer on their own: a roster with one player added from the form and one rated player, both selected, passed to `generateMatch` | a new player carries ratings, defaulting to the lowest value, 0, so the balancer can sort it; the roster card (components/PlayerCard.tsx:156) already falls back to 0 for a missing rating | high; not executed | MissingRatings.UnratedPlayerThrows | MissingRatings.RatedPoolSorts |
