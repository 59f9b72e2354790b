# recommendable: the recommendation engine, modelled in Dafny

`recommendable` is a Ruby library for collaborative filtering. Users like
("gem") or dislike ("disgem") items of the classes that are registered as
ratable. Everything is recorded in Redis:

- plain sets hold each user's likes, dislikes, hidden and bookmarked items
  per class;
- reverse sets record, for each item, the users who liked or disliked it;
- sorted sets hold each user's similarities to other users, their
  recommendations per class, and each class's item scores.

The engine has four parts:

- `similarity_between` compares two users. It counts agreements minus
  disagreements and divides by the first user's number of ratings.
- `update_similarities_for` refreshes a user's neighbours and trims them by
  rank.
- `predict_for` and `update_recommendations_for` score the items that
  neighbours rated and store those scores as the user's recommendations.
- `update_score_for` keeps a per-item Wilson lower-bound score.

This project models that engine over an explicit Redis state and proves what
its operations do to the state.

- `Store` is the state. `Db` is its value: plain sets and sorted sets under
  structured keys. `Redis` is a class with one method per Redis command, and
  each method's contract gives the new state as a function of the old one.
  `SortedSet` covers ranking by (score, member) and Redis's resolution of
  negative rank indices.
- `KeyMapper` builds the string keys: `namespace:table:id:relation`.
- `KeyNames` maps each structured key to its string. It proves that distinct
  keys are distinct strings when no id or table name holds a `:`, no class's
  table is `by`, and `tableize` gives each class in use its own table.
- `Gemr`, `Disgemr`, `Gemable` and `Disgemable` are the two sides of likes
  and dislikes.
- `Rater` wires the hooks together. `gem` and `disgem` run a before-hook that
  removes the opposite rating or else the hidden mark, then the two SADDs, then
  the after-hooks: the score update and `unrecommend`. It also holds `rated?`,
  `rated_anything?` and `unrate`.
- `RaterNames` covers the dynamic finders: how `method_missing` and
  `respond_to?` classify names such as `gemd_movies_count`.
- `Ratable` covers class registration, an item's `rated?`, `top` and the
  cascade delete `remove_from_recommendable!`.
- `Calculations` holds the arithmetic listed above.

Every operation that writes to Redis is a method that `modifies` the `Redis`
object. It is proved equal to a function on `Db`, and the properties are lemmas
about that function: the reverse index stays in step, likes and dislikes stay
exclusive, similarities stay in [-1, 1], recommendations never include rated
items, and the purge removes exactly the item. The Ruby library's global
configuration is the explicit value `Configuration.Config`.

## Model

| member | source | states |
|---|---|---|
| KeyMapper.ActionName | lib/recommendable/helpers/redis_key_mapper.rb:5 | the five per-user relation names, each of its fixed length |
| KeyMapper.Join | lib/recommendable/helpers/redis_key_mapper.rb:7 | `join(':')` starts with its first part; JoinCompactFour gives the whole string for the four-part keys the mapper builds |
| KeyMapper.Compact | lib/recommendable/helpers/redis_key_mapper.rb:7 | `compact` keeps exactly the present parts: never more than given, all of them exactly when none is missing, and a string is kept iff it is present |
| KeyMapper.JoinCompactFour | lib/recommendable/helpers/redis_key_mapper.rb:7 | joining `[ns, a, b, c].compact` is the namespace prefix (or nothing) followed by `a:b:c` |
| KeyMapper.ActionSetFor | lib/recommendable/helpers/redis_key_mapper.rb:5-9 | the user-side key is `namespace:<user table>:id:<action>_<table>` |
| KeyMapper.SimilaritySetFor | lib/recommendable/helpers/redis_key_mapper.rb:11-13 | the similarity key is `namespace:<user table>:id:similarities` |
| KeyMapper.GemdBySetFor | lib/recommendable/helpers/redis_key_mapper.rb:15-17 | the reverse like key is `namespace:<table>:id:gemd_by` |
| KeyMapper.DisgemdBySetFor | lib/recommendable/helpers/redis_key_mapper.rb:19-21 | the reverse dislike key is `namespace:<table>:id:disgemd_by` |
| KeyMapper.ScoreSetFor | lib/recommendable/helpers/redis_key_mapper.rb:23-25 | the score key has no id segment and is joined without `compact`, so a missing namespace leaves an empty first segment |
| KeyMapper.TempSetFor | lib/recommendable/helpers/redis_key_mapper.rb:27-29 | the temporary key is `namespace:<table>:id:temp` |
| KeyMapper.DefaultUserKeys | test/recommendable/helpers/redis_key_mapper_test.rb:5-19 | in the default configuration the four rating keys of user 1 for movies are `recommendable:users:1:gemd_movies` and so on |
| KeyMapper.DefaultUserSortedKeys | test/recommendable/helpers/redis_key_mapper_test.rb:21-27 | the recommended, similarity and temporary keys of user 1 in the default configuration |
| KeyMapper.DefaultItemKeys | test/recommendable/helpers/redis_key_mapper_test.rb:29-31 | `recommendable:movies:1:gemd_by` |
| KeyMapper.DefaultItemDislikeKey | test/recommendable/helpers/redis_key_mapper_test.rb:33-35 | `recommendable:movies:1:disgemd_by` |
| KeyMapper.DefaultScoreKey | test/recommendable/helpers/redis_key_mapper_test.rb:37-39 | `recommendable:movies:scores` |
| KeyMapper.NamespaceSegment | lib/recommendable/helpers/redis_key_mapper.rb:7-28 | with a namespace, each compacted key is the namespace, a `:`, and the key built without one |
| KeyMapper.ScoreNamespace | lib/recommendable/helpers/redis_key_mapper.rb:24 | with no namespace the score key starts with `:`; with one, the namespace goes in front of it |
| KeyMapper.KeyParts | lib/recommendable/helpers/redis_key_mapper.rb:7 | a key built from fixed leading segments determines its id and relation |
| KeyMapper.ActionKeysDistinct | lib/recommendable/helpers/redis_key_mapper.rb:5-9 | for one class and user the five action keys are pairwise distinct |
| KeyMapper.KeysInjective | lib/recommendable/helpers/redis_key_mapper.rb:5-29 | with naming, class and relation fixed, distinct ids give distinct keys, for every builder with an id |
| KeyNames.Name | lib/recommendable/helpers/redis_key_mapper.rb:5-29 | the Redis string of each structured key, built by the KeyMapper builder of its family; NamesDistinct states what it keeps apart |
| KeyNames.NameRendersLayout | lib/recommendable/helpers/redis_key_mapper.rb:5-29 | every key is `namespace:table:id:relation`, except the score key `namespace:table:scores` |
| KeyNames.RelationInjective | lib/recommendable/helpers/redis_key_mapper.rb:5-21 | the relation segment names the family (and for a rating key the action and table) exactly, unless a table is `by`; none is `scores` |
| KeyNames.RenderInjective | lib/recommendable/helpers/redis_key_mapper.rb:5-29 | with no `:` inside a segment, distinct layouts give distinct strings, with or without a namespace |
| KeyNames.NamesDistinct | lib/recommendable/helpers/redis_key_mapper.rb:5-29 | distinct store keys are distinct Redis strings, across families and classes, when ids and tables hold no `:`, no table is `by` and `tableize` is one-to-one on the classes in use |
| KeyNames.ByTableCollides | lib/recommendable/helpers/redis_key_mapper.rb:5-17 | a class whose table is `by` makes a user's gemd key and the user's own gemd_by key one string |
| KeyNames.SharedTableCollides | lib/recommendable/helpers/redis_key_mapper.rb:15-25 | two classes with one table name share their gemd_by and score keys |
| SortedSet.MinString | lib/recommendable/helpers/calculations.rb:101-102 | the least member string under Redis's byte order, below every other |
| SortedSet.MinKey | lib/recommendable/helpers/calculations.rb:101-102 | the lowest-ranked member of a sorted set, by score and then by member |
| SortedSet.Ranked | lib/recommendable/helpers/calculations.rb:101-102 | the ranking lists every member exactly once |
| SortedSet.RankedSorted | lib/recommendable/helpers/calculations.rb:101-102 | the ranking ascends by (score, member) |
| SortedSet.RankedDistinct | lib/recommendable/helpers/calculations.rb:101-102 | no member is ranked twice |
| SortedSet.RankOf | lib/recommendable/helpers/calculations.rb:77 | every member has exactly one rank |
| SortedSet.Reverse | lib/recommendable/ratable.rb:50 | the reversal of a listing, position by position |
| SortedSet.ZRange | lib/recommendable/helpers/calculations.rb:102 | ZRANGE: the resolved slice of the ranking; RangeFromZero and RankedSorted state its order and contents |
| SortedSet.ZRevRange | lib/recommendable/helpers/calculations.rb:101 | ZREVRANGE: the resolved slice of the reversed ranking; RangeFromZero, RevRankedDescending and RevPrefixDominates state it |
| SortedSet.ZRemRangeByRank | lib/recommendable/helpers/calculations.rb:77 | ZREMRANGEBYRANK: the members whose rank lies in the resolved range are removed; RemovedByRank and RemoveMiddle state it |
| SortedSet.Resolve | lib/recommendable/helpers/calculations.rb:77 | Redis's resolution of [start, stop]: negative indices count from the end, a stop past the end is clamped, and the result is an inclusive range within the set |
| SortedSet.RemovedByRankSubset | lib/recommendable/helpers/calculations.rb:77 | ZREMRANGEBYRANK only deletes, and survivors keep their scores |
| SortedSet.RemovedByRank | lib/recommendable/helpers/calculations.rb:77 | a member survives exactly when its rank is outside the resolved range |
| SortedSet.RemoveMiddleMembers | lib/recommendable/helpers/calculations.rb:77 | removing the middle ranks keeps the members of the two ends of the ranking |
| SortedSet.EndsDistinct | lib/recommendable/helpers/calculations.rb:77 | the two ends of the ranking share no member |
| SortedSet.RemoveMiddle | lib/recommendable/helpers/calculations.rb:77 | on more than low + high members, exactly the `low` lowest and the `high` highest survive, with their scores |
| SortedSet.RemoveBottom | lib/recommendable/helpers/calculations.rb:128 | removing ranks 0 to length - high - 1 keeps exactly the `high` highest |
| SortedSet.RemoveToEnd | lib/recommendable/helpers/calculations.rb:77 | a stop of -1 means the last rank, so only the `low` lowest survive |
| SortedSet.RangeFromZero | lib/recommendable/helpers/calculations.rb:101-102 | ZRANGE/ZREVRANGE 0 (n-1) return the first n members of the ascending/descending ranking, and the whole ranking for n == 0 |
| SortedSet.RevRankedDescending | lib/recommendable/ratable.rb:50 | the descending ranking: every member ranks above those after it |
| SortedSet.RevPrefixDominates | lib/recommendable/ratable.rb:50 | the first c members of the descending ranking outrank every other member |
| Store.Db.PutSet | lib/recommendable/rater/gemr.rb:15 | a write changes one key only, and an empty set deletes the key |
| Store.Db.SUnion | lib/recommendable/helpers/calculations.rb:62 | SUNION: a member of any of the keys |
| Store.Db.PutZ | lib/recommendable/helpers/calculations.rb:70 | a sorted-set write changes one key only |
| Store.ZAddAllGet | lib/recommendable/helpers/calculations.rb:120-122 | a batch of ZADDs merges its entries over the old ones |
| Store.InvariantsOfSets | lib/recommendable/rater/gemr.rb:15-16 | the reverse-index and exclusivity invariants read only plain sets |
| Gemable.GemdByIds | lib/recommendable/ratable/gemable.rb:21-23 | gemd_by_ids is SMEMBERS of the item's gemd_by set; GemdByIdsExact ties it to the users' gemd sets |
| Gemable.GemdByCount | lib/recommendable/ratable/gemable.rb:14-16 | with the reverse index in place, gemd_by_count is zero exactly when no user's gemd set for the item's class holds the item |
| Gemable.GemdByIdsExact | lib/recommendable/ratable/gemable.rb:21-23 | with the reverse index in step, gemd_by_ids is exactly the users whose gemd set holds the item |
| Gemable.GemdByIdsFor | lib/recommendable/ratable/gemable.rb:21-23 | SMEMBERS of the item's gemd_by set |
| Gemable.GemdByCountFor | lib/recommendable/ratable/gemable.rb:14-16 | SCARD of the item's gemd_by set |
| Disgemable.DisgemdByIds | lib/recommendable/ratable/disgemable.rb:21-23 | disgemd_by_ids is SMEMBERS of the item's disgemd_by set; DisgemdByIdsExact ties it to the users' disgemd sets |
| Disgemable.DisgemdByCount | lib/recommendable/ratable/disgemable.rb:14-16 | with the reverse index in place, disgemd_by_count is zero exactly when no user's disgemd set for the item's class holds the item |
| Disgemable.DisgemdByIdsExact | lib/recommendable/ratable/disgemable.rb:21-23 | with the reverse index in step, disgemd_by_ids is exactly the users whose disgemd set holds the item |
| Disgemable.DisgemdByIdsFor | lib/recommendable/ratable/disgemable.rb:21-23 | SMEMBERS of the item's disgemd_by set |
| Disgemable.DisgemdByCountFor | lib/recommendable/ratable/disgemable.rb:14-16 | SCARD of the item's disgemd_by set |
| Gemr.Gems | lib/recommendable/rater/gemr.rb:26-28 | gems? is SISMEMBER of the item in the user's gemd set; GemsFor is the store call |
| Gemr.GemdIds | lib/recommendable/rater/gemr.rb:75-79 | gemd_ids_for is SMEMBERS of the user's gemd set for the class; AddGemOtherClass and GemdIdsInCommonWith use it |
| Gemr.GemdCount | lib/recommendable/rater/gemr.rb:95-97 | with the reverse index in place, gemd_count_for is zero exactly when the user is in no gemd_by set of the class |
| Gemr.GemsCount | lib/recommendable/rater/gemr.rb:62-66 | gems_count sums gemd_count_for over the ratable classes in order; GemsCountAfterAdd and GemsCountPositive state what it counts |
| Gemr.GemdIdsInCommon | lib/recommendable/rater/gemr.rb:116-119 | the SINTER of two users' gemd sets; GemdIdsInCommonWith gives its meaning |
| Gemr.AddGem | lib/recommendable/rater/gemr.rb:15-16 | the two SADDs of gem; AddGemMembers gives their whole effect |
| Gemr.RemoveGem | lib/recommendable/rater/gemr.rb:38-39 | the two SREMs of ungem; RemoveGemMembers gives their whole effect |
| Gemr.Ungem | lib/recommendable/rater/gemr.rb:34-43 | ungem as a function on the store; UngemNotGemd, UngemRemoves, UngemLowersCounts and UngemKeepsIndex state what it does |
| Gemr.AddGemMembers | lib/recommendable/rater/gemr.rb:15-16 | the two SADDs add the item to the user's set and the user to the item's, and change nothing else |
| Gemr.RemoveGemMembers | lib/recommendable/rater/gemr.rb:38-39 | the two SREMs remove exactly those two memberships |
| Gemr.AddGemKeepsIndex | lib/recommendable/rater/gemr.rb:15-16 | the SADDs keep both sides of the like index in step |
| Gemr.RemoveGemKeepsIndex | lib/recommendable/rater/gemr.rb:38-39 | the SREMs keep both sides of the like index in step |
| Gemr.GemsCountAfterAdd | lib/recommendable/rater/gemr.rb:62-66 | a new like raises the liker's gems_count by the number of times its class is listed, and nobody else's |
| Gemr.AddGemOtherClass | test/recommendable/rater/liker_test.rb:72-82 | liking an item of one class leaves every other class's gemd ids and count unchanged |
| Gemr.UngemNotGemd | lib/recommendable/rater/gemr.rb:35 | ungem of an item not gemd returns nil and changes nothing |
| Gemr.UngemRemoves | lib/recommendable/rater/gemr.rb:34-43 | ungem of a gemd item returns true and removes both memberships, and no other set changes |
| Gemr.UngemLowersCounts | lib/recommendable/rater/gemr.rb:34-43 | ungem of a gemd item lowers by one both the user's gemd_count_for the class and the item's gemd_by_count |
| Gemr.UngemKeepsIndex | lib/recommendable/rater/gemr.rb:34-43 | ungem keeps the reverse index |
| Gemr.GemsCountPositive | lib/recommendable/rater/gemr.rb:62-66 | gems_count is positive exactly when some listed class has a like |
| Gemr.GemsFor | lib/recommendable/rater/gemr.rb:26-28 | gems? is SISMEMBER of the item in the user's gemd set for its class |
| Gemr.UngemFor | lib/recommendable/rater/gemr.rb:34-43 | the store after ungem is `Ungem` of the state before, and so is the result |
| Gemr.GemsCountFor | lib/recommendable/rater/gemr.rb:62-66 | the inject of SCARDs equals the per-class sum in class order |
| Gemr.GemdIdsInCommonWith | lib/recommendable/rater/gemr.rb:116-119 | the ids are exactly the items both users like |
| Disgemr.Disgems | lib/recommendable/rater/disgemr.rb:26-28 | disgems? is SISMEMBER of the item in the user's disgemd set; DisgemsFor is the store call |
| Disgemr.DisgemdIds | lib/recommendable/rater/disgemr.rb:75-79 | disgemd_ids_for is SMEMBERS of the user's disgemd set for the class |
| Disgemr.DisgemdCount | lib/recommendable/rater/disgemr.rb:95-97 | with the reverse index in place, disgemd_count_for is zero exactly when the user is in no disgemd_by set of the class |
| Disgemr.DisgemsCount | lib/recommendable/rater/disgemr.rb:62-66 | disgems_count sums disgemd_count_for over the ratable classes in order; DisgemsCountAfterAdd and DisgemsCountPositive state what it counts |
| Disgemr.DisgemdIdsInCommon | lib/recommendable/rater/disgemr.rb:116-119 | the SINTER of two users' disgemd sets; DisgemdIdsInCommonWith gives its meaning |
| Disgemr.AddDisgem | lib/recommendable/rater/disgemr.rb:15-16 | the two SADDs of disgem; AddDisgemMembers gives their whole effect |
| Disgemr.RemoveDisgem | lib/recommendable/rater/disgemr.rb:38-39 | the two SREMs of undisgem; RemoveDisgemMembers gives their whole effect |
| Disgemr.Undisgem | lib/recommendable/rater/disgemr.rb:34-43 | undisgem as a function on the store; UndisgemNotDisgemd, UndisgemRemoves, UndisgemLowersCounts and UndisgemKeepsIndex state what it does |
| Disgemr.AddDisgemMembers | lib/recommendable/rater/disgemr.rb:15-16 | the two SADDs add the item to the user's set and the user to the item's, and change nothing else |
| Disgemr.RemoveDisgemMembers | lib/recommendable/rater/disgemr.rb:38-39 | the two SREMs remove exactly those two memberships |
| Disgemr.AddDisgemKeepsIndex | lib/recommendable/rater/disgemr.rb:15-16 | the SADDs keep both sides of the dislike index in step |
| Disgemr.RemoveDisgemKeepsIndex | lib/recommendable/rater/disgemr.rb:38-39 | the SREMs keep both sides of the dislike index in step |
| Disgemr.DisgemsCountAfterAdd | lib/recommendable/rater/disgemr.rb:62-66 | a new dislike raises the disliker's disgems_count by the number of times its class is listed, and nobody else's |
| Disgemr.AddDisgemOtherClass | test/recommendable/rater/disliker_test.rb:72-82 | disliking an item of one class leaves every other class's disgemd ids and count unchanged |
| Disgemr.UndisgemNotDisgemd | lib/recommendable/rater/disgemr.rb:35 | undisgem of an item not disgemd returns nil and changes nothing |
| Disgemr.UndisgemRemoves | lib/recommendable/rater/disgemr.rb:34-43 | undisgem of a disgemd item returns true and removes both memberships, and no other set changes |
| Disgemr.UndisgemLowersCounts | lib/recommendable/rater/disgemr.rb:34-43 | undisgem of a disgemd item lowers by one both the user's disgemd_count_for the class and the item's disgemd_by_count |
| Disgemr.UndisgemKeepsIndex | lib/recommendable/rater/disgemr.rb:34-43 | undisgem keeps the reverse index |
| Disgemr.DisgemsCountPositive | lib/recommendable/rater/disgemr.rb:62-66 | disgems_count is positive exactly when some listed class has a dislike |
| Disgemr.DisgemsFor | lib/recommendable/rater/disgemr.rb:26-28 | disgems? is SISMEMBER of the item in the user's disgemd set for its class |
| Disgemr.UndisgemFor | lib/recommendable/rater/disgemr.rb:34-43 | the store after undisgem is `Undisgem` of the state before, and so is the result |
| Disgemr.DisgemsCountFor | lib/recommendable/rater/disgemr.rb:62-66 | the inject of SCARDs equals the per-class sum in class order |
| Disgemr.DisgemdIdsInCommonWith | lib/recommendable/rater/disgemr.rb:116-119 | the ids are exactly the items both users dislike |
| Rater.Unhide | lib/recommendable/rater.rb:51 | unhide as the hooks use it: nil unless hidden, otherwise the SREM and true; UnhideMembers states it |
| Rater.Unbookmark | lib/recommendable/rater.rb:119 | unbookmark as unrate uses it; UnbookmarkMembers states it |
| Rater.Unrecommend | lib/recommendable/rater.rb:62 | unrecommend: a ZREM of the item from the user's recommended set for its class; UnrecommendFor is the store call |
| Rater.AfterRate | lib/recommendable/rater.rb:54-63 | the after-hooks of gem and disgem: update_score_for, then unrecommend; AfterRateEffect states their effect |
| Rater.UnhideMembers | lib/recommendable/rater.rb:51 | unhide removes the hidden mark, reports whether it was there and touches nothing else |
| Rater.UnbookmarkMembers | lib/recommendable/rater.rb:119 | unbookmark removes the bookmark, reports whether it was there and touches nothing else |
| Rater.UnhideKeepsIndex | lib/recommendable/rater.rb:51 | unhide keeps the reverse index |
| Rater.AfterRateEffect | lib/recommendable/rater.rb:54-63 | the after-hooks keep every plain set, rescore the item, drop it from the user's recommendations and leave every other sorted set alone |
| Rater.UngemRescores | lib/recommendable/rater.rb:54-59 | after ungem the item's score is the Wilson score of its remaining votes, or the score set is unchanged when none remain |
| Rater.UpdateScoreRescores | lib/recommendable/rater.rb:56 | after update_score_for the item's entry agrees with its current votes, and with no votes nothing changes |
| Rater.UndisgemRescores | lib/recommendable/rater.rb:54-59 | the same after undisgem |
| Rater.BeforeGem | lib/recommendable/rater.rb:51 | before_gem: undisgem(obj), and unhide(obj) only when that returned nil; BeforeGemMembers and BeforeGemKeepsIndex state it |
| Rater.Gem | lib/recommendable/rater/gemr.rb:10-20 | gem as a function on the store: ArgumentError, nil, or the before-hook, the two SADDs, the after-hooks and true; GemNotRatable, GemAlready, GemMembers, GemSortedSets, GemKeepsIndex and GemKeepsExclusive state what it does |
| Rater.GemNotRatable | lib/recommendable/rater/gemr.rb:11 | gem of an item whose class is not ratable raises ArgumentError and changes nothing |
| Rater.GemAlready | lib/recommendable/rater/gemr.rb:12 | gem of an item already gemd returns nil and changes nothing |
| Rater.BeforeGemMembers | lib/recommendable/rater.rb:51 | before_gem: a disgemd item loses both dislike memberships and keeps its hidden mark; any other item loses only the hidden mark |
| Rater.GemMembers | lib/recommendable/rater/gemr.rb:14-17 | a successful gem's effect on every set: the like is recorded, the dislike or else the hidden mark goes, nothing else changes |
| Rater.GemSortedSets | lib/recommendable/rater.rb:54-63 | a successful gem rescores the item, drops it from the user's recommendations and changes no other sorted set |
| Rater.GemRescores | lib/recommendable/rater.rb:54-59 | after a successful gem the item has a score entry, and it is the Wilson score of its new like and dislike counts |
| Rater.GemZFrame | lib/recommendable/rater.rb:61-63 | a successful gem removes the item from the user's recommended set and changes no other sorted set except the scores |
| Rater.GemFirstRater | test/recommendable/ratable/likable_test.rb:20-26 | the first gem of an unrated item leaves exactly the gemming user in its gemd_by set, and the index stays in step |
| Rater.GemSecondRater | test/recommendable/ratable/likable_test.rb:20-26 | a second user's gem of an item with one gemming user takes gemd_by_count to 2 |
| Rater.GemRecords | lib/recommendable/rater/gemr.rb:15-19 | after a successful gem: true, the item in the user's gemd set, the user in its gemd_by set (exactly one more), the item not disgemd |
| Rater.BeforeGemKeepsIndex | lib/recommendable/rater.rb:51 | before_gem keeps the reverse index |
| Rater.GemKeepsIndex | lib/recommendable/rater/gemr.rb:10-20 | gem keeps the reverse index |
| Rater.GemKeepsExclusive | lib/recommendable/rater.rb:51 | gem keeps likes and dislikes exclusive |
| Rater.GemHidden | lib/recommendable/rater.rb:51 | the short-circuit: a disgemd item keeps its hidden mark, any other item loses it |
| Rater.GemRaisesCount | test/recommendable/ratable/likable_test.rb:20-26 | a new gem adds exactly its user to the item's gemd_by ids and raises the count by one |
| Rater.GemCountStep | test/recommendable/ratable/likable_test.rb:20-26 | a gem by a user not among the likers raises the count by one and keeps the index in step |
| Rater.GemCountsUp | test/recommendable/ratable/likable_test.rb:20-26 | two users' gems of an unrated item take gemd_by_count from 0 to 1 to 2 |
| Rater.GemThenDisgem | lib/recommendable/rater.rb:51-52 | gem then disgem leaves the item only disgemd, with the user in disgemd_by and out of gemd_by |
| Rater.AfterRateFor | lib/recommendable/rater.rb:54-63 | the after-hooks over the store equal `AfterRate` |
| Rater.BeforeGemFor | lib/recommendable/rater.rb:51 | before_gem over the store equals `BeforeGem` |
| Rater.GemFor | lib/recommendable/rater/gemr.rb:10-20 | gem over the store: reply and new state equal `Gem` |
| Rater.BeforeDisgem | lib/recommendable/rater.rb:52 | before_disgem: ungem(obj), and unhide(obj) only when that returned nil; BeforeDisgemMembers and BeforeDisgemKeepsIndex state it |
| Rater.Disgem | lib/recommendable/rater/disgemr.rb:10-20 | disgem as a function on the store; DisgemNotRatable, DisgemAlready, DisgemMembers, DisgemSortedSets, DisgemKeepsIndex and DisgemKeepsExclusive state what it does |
| Rater.DisgemNotRatable | lib/recommendable/rater/disgemr.rb:11 | disgem of an item whose class is not ratable raises ArgumentError and changes nothing |
| Rater.DisgemAlready | lib/recommendable/rater/disgemr.rb:12 | disgem of an item already disgemd returns nil and changes nothing |
| Rater.BeforeDisgemMembers | lib/recommendable/rater.rb:52 | before_disgem: a gemd item loses both like memberships and keeps its hidden mark; any other item loses only the hidden mark |
| Rater.DisgemMembers | lib/recommendable/rater/disgemr.rb:14-17 | a successful disgem's effect on every set |
| Rater.DisgemSortedSets | lib/recommendable/rater.rb:54-63 | a successful disgem rescores the item, drops it from the user's recommendations and changes no other sorted set |
| Rater.DisgemRescores | lib/recommendable/rater.rb:54-59 | after a successful disgem the item has a score entry, and it is the Wilson score of its new like and dislike counts |
| Rater.DisgemZFrame | lib/recommendable/rater.rb:61-63 | a successful disgem removes the item from the user's recommended set and changes no other sorted set except the scores |
| Rater.DisgemFirstRater | test/recommendable/ratable/dislikable_test.rb:20-26 | the first disgem of an unrated item leaves exactly the disgemming user in its disgemd_by set, and the index stays in step |
| Rater.DisgemSecondRater | test/recommendable/ratable/dislikable_test.rb:20-26 | a second user's disgem of an item with one disgemming user takes disgemd_by_count to 2 |
| Rater.DisgemRecords | lib/recommendable/rater/disgemr.rb:15-19 | after a successful disgem: true, the item in the user's disgemd set, the user in its disgemd_by set (exactly one more), the item not gemd |
| Rater.BeforeDisgemKeepsIndex | lib/recommendable/rater.rb:52 | before_disgem keeps the reverse index |
| Rater.DisgemKeepsIndex | lib/recommendable/rater/disgemr.rb:10-20 | disgem keeps the reverse index |
| Rater.DisgemKeepsExclusive | lib/recommendable/rater.rb:52 | disgem keeps likes and dislikes exclusive |
| Rater.DisgemHidden | lib/recommendable/rater.rb:52 | the short-circuit: a gemd item keeps its hidden mark, any other item loses it |
| Rater.DisgemRaisesCount | test/recommendable/ratable/dislikable_test.rb:20-26 | a new disgem adds exactly its user to the item's disgemd_by ids and raises the count by one |
| Rater.DisgemCountStep | test/recommendable/ratable/dislikable_test.rb:20-26 | a disgem by a user not among the dislikers raises the count by one and keeps the index in step |
| Rater.DisgemCountsUp | test/recommendable/ratable/dislikable_test.rb:20-26 | two users' disgems of an unrated item take disgemd_by_count from 0 to 1 to 2 |
| Rater.DisgemThenGem | lib/recommendable/rater.rb:51-52 | disgem then gem leaves the item only gemd, with the user in gemd_by and out of disgemd_by |
| Rater.BeforeDisgemFor | lib/recommendable/rater.rb:52 | before_disgem over the store equals `BeforeDisgem` |
| Rater.DisgemFor | lib/recommendable/rater/disgemr.rb:10-20 | disgem over the store: reply and new state equal `Disgem` |
| Rater.Rated | lib/recommendable/rater.rb:109-111 | rated?(obj): gems? or disgems?; RatedFor is the store call with the short-circuit |
| Rater.RatedAnything | lib/recommendable/rater.rb:113-115 | rated_anything?: one of the two counts is positive; RatedAnythingIff states what that means |
| Rater.RatedAnythingIff | lib/recommendable/rater.rb:113-115 | rated_anything? holds exactly when some listed class has a like or a dislike of the user |
| Rater.UnrateRating | lib/recommendable/rater.rb:118 | the first half of unrate: ungem, else undisgem, else unhide, each tried only when the one before returned nil; UnrateRatingMembers states it |
| Rater.Unrate | lib/recommendable/rater.rb:117-120 | unrate(obj): that half, then unbookmark; UnrateMembers, UnrateClears, UnrateShortCircuit and UnrateKeepsIndex state what it does |
| Rater.UnrateMembers | lib/recommendable/rater.rb:117-120 | unrate removes the like if any, else the dislike if any, else the hidden mark, and always the bookmark |
| Rater.UnrateRatingMembers | lib/recommendable/rater.rb:118 | the short-circuit removes the like if any, else the dislike if any, else the hidden mark, and touches no other set |
| Rater.UnrateClears | lib/recommendable/rater.rb:117-120 | with likes and dislikes exclusive, afterwards the item is neither liked, disliked nor bookmarked, and the result says whether it was bookmarked |
| Rater.UnrateShortCircuit | lib/recommendable/rater.rb:118 | a rated item keeps its hidden mark, an unrated one loses it, and an item both liked and disliked stays disliked |
| Rater.UnrateKeepsIndex | lib/recommendable/rater.rb:117-120 | unrate keeps the reverse index |
| Rater.UnhideFor | lib/recommendable/rater.rb:51 | unhide over the store equals `Unhide` |
| Rater.UnbookmarkFor | lib/recommendable/rater.rb:119 | unbookmark over the store equals `Unbookmark` |
| Rater.UnrecommendFor | lib/recommendable/rater.rb:62 | unrecommend over the store equals `Unrecommend` |
| Rater.RatedFor | lib/recommendable/rater.rb:109-111 | rated? over the store: liked or disliked |
| Rater.RatedAnythingFor | lib/recommendable/rater.rb:113-115 | rated_anything? over the store: one of the two counts is positive |
| Rater.UnrateFor | lib/recommendable/rater.rb:117-120 | unrate over the store equals `Unrate` |
| RaterNames.MatchAction | lib/recommendable/rater.rb:66 | a match of `\A<action>_(.+)<suffix>\z` captures a non-empty, newline-free middle that rebuilds the name |
| RaterNames.FirstLetters | lib/recommendable/rater.rb:66 | the action names start with different letters, so at most one alternative matches |
| RaterNames.MatchRendered | lib/recommendable/rater.rb:66 | a rendered name matches its own action and suffix, capturing its class segment |
| RaterNames.MatchOtherAction | lib/recommendable/rater.rb:66 | a name with one action's prefix matches no other action |
| RaterNames.MatchOtherSuffix | lib/recommendable/rater.rb:66-78 | a name with one suffix matches no pattern with another suffix |
| RaterNames.MatchPlainSuffix | lib/recommendable/rater.rb:66-78 | a plain name matches a suffixed pattern only when its class segment ends in that suffix |
| RaterNames.MatchRatedAction | lib/recommendable/rater.rb:66 | the suffixed patterns never yield `recommended` |
| RaterNames.MatchRatedRendered | lib/recommendable/rater.rb:66-78 | a rendered suffixed name matches only its own action and suffix |
| RaterNames.MissingMatch | lib/recommendable/rater.rb:66-84 | the first of method_missing's four patterns that matches, with its action and class segment; MissingMatchSuffixed, MissingMatchPlain and FirstPatternDecides state it |
| RaterNames.MissingMatchSuffixed | lib/recommendable/rater.rb:65-83 | method_missing reads a rendered suffixed name back as its action, form and class segment |
| RaterNames.MatchRatedPlain | lib/recommendable/rater.rb:66-78 | no suffixed pattern matches a plain name whose segment does not end in a suffix |
| RaterNames.MatchPlainRendered | lib/recommendable/rater.rb:84 | the plain pattern reads a rendered plain name back |
| RaterNames.MissingMatchPlain | lib/recommendable/rater.rb:65-92 | method_missing reads a rendered plain name back, unless its segment ends in a suffix |
| RaterNames.Classify | lib/recommendable/rater.rb:65-92 | method_missing: the finder call it sends, or the superclass's NoMethodError; ClassifyRender and RecommendedOnlyPlain state it |
| RaterNames.ClassifyRender | lib/recommendable/rater.rb:65-92 | method_missing dispatches a rendered name to its own action, form and looked-up class (or the superclass on NameError), with the two exceptions the pattern order forces |
| RaterNames.RecommendedOnlyPlain | lib/recommendable/rater.rb:84-86 | whatever is dispatched for `recommended` is the plain form |
| RaterNames.FirstPatternDecides | lib/recommendable/rater.rb:66-71 | when the first matching pattern's class lookup fails, no later pattern is tried |
| RaterNames.RecommendedCountIsPlain | lib/recommendable/rater.rb:72-86 | `recommended_movies_count` asks for recommendations of the class `movies_count` |
| RaterNames.RespondsTo | lib/recommendable/rater.rb:95-107 | respond_to? as written; RespondsToMissesCount exhibits the name it denies |
| RaterNames.RespondsToCorrected | lib/recommendable/rater.rb:95-107 | respond_to? with method_missing's four patterns in its order; RespondsToCorrectedAgrees proves it agrees with method_missing |
| RaterNames.RespondsToMissesCount | lib/recommendable/rater.rb:95-107 | as written, respond_to? denies a count finder that method_missing serves |
| RaterNames.RespondMatchCount | lib/recommendable/rater.rb:96-98 | respond_to? reads a rendered count finder with the plain pattern, with `_count` kept in the class segment |
| RaterNames.RespondsToCorrectedAgrees | lib/recommendable/rater.rb:65-107 | respond_to? trying method_missing's patterns agrees with what method_missing dispatches |
| Ratable.IsRecommendable | lib/recommendable/ratable.rb:35 | recommendable?: the class is listed among the ratable classes |
| Ratable.MakeRecommendable | lib/recommendable/ratable.rb:12 | make_recommendable!: the class is appended to the ratable classes; MakeRecommendableRegisters states it |
| Ratable.RegisterAll | lib/recommendable/rater.rb:19 | make_recommendable! on each thing, in order; RegisterAllAppends states it |
| Ratable.Recommends | lib/recommendable/rater.rb:13-19 | recommends: reset the list, set the user class, register each thing; RecommendsRegisters states it |
| Ratable.RegisterAllAppends | lib/recommendable/ratable.rb:12 | registering appends the classes in order and changes nothing else in the configuration |
| Ratable.RecommendsRegisters | lib/recommendable/rater.rb:13-19 | after `recommends`, a class is recommendable exactly when it was named, and the user class is set |
| Ratable.MakeRecommendableRegisters | lib/recommendable/ratable.rb:11-35 | make_recommendable! makes its class recommendable and leaves the others as they were |
| Ratable.ItemRated | lib/recommendable/ratable.rb:40-42 | an item's rated?: gemd_by_count or disgemd_by_count is positive; ItemRatedIff states what that means |
| Ratable.ItemRatedIff | lib/recommendable/ratable.rb:40-42 | with the reverse index in step, an item is rated exactly when some user likes or dislikes it |
| Ratable.Top | lib/recommendable/ratable.rb:48-53 | top(count): ZREVRANGE of the score set from 0 to count - 1; TopPrefix, TopDescending, TopDominates and TopZeroIsEverything state it |
| Ratable.TopPrefix | lib/recommendable/ratable.rb:48-53 | for count >= 1, top is the first min(count, zcard) members of the descending ranking |
| Ratable.TopDescending | lib/recommendable/ratable.rb:48-53 | top returns min(count, zcard) distinct items in descending score order |
| Ratable.TopDominates | lib/recommendable/ratable.rb:48-53 | every item top returns outranks every scored item it leaves out |
| Ratable.TopZeroIsEverything | lib/recommendable/ratable.rb:50 | top(0) asks for ranks 0 to -1 and returns every scored item, best first |
| Ratable.ItemRatedFor | lib/recommendable/ratable.rb:40-42 | rated? over the store equals `ItemRated` |
| Ratable.TopFor | lib/recommendable/ratable.rb:48-53 | top's ids over the store equal `Top` |
| Ratable.SRemEach | lib/recommendable/ratable.rb:79 | the SREM loop removes the id from exactly the listed sets |
| Ratable.ZRemEach | lib/recommendable/ratable.rb:80 | the ZREM loop removes the id from exactly the listed sorted sets |
| Ratable.RatingKeys | lib/recommendable/ratable.rb:71-73 | the KEYS scans find exactly the existing rating sets of the class |
| Ratable.RemoveFromRecommendable | lib/recommendable/ratable.rb:59-83 | the state after the purge is the old one with the item purged, key by key |
| Ratable.Purged | lib/recommendable/ratable.rb:59-83 | what remove_from_recommendable! leaves, key by key; PurgedItemGone, PurgedKeepsRest and PurgedKeepsInvariants state it |
| Ratable.PurgedItemGone | lib/recommendable/ratable.rb:64-81 | after the purge the reverse sets are gone, the item is in no user's rating or recommended set and has no score, and it is not rated |
| Ratable.PurgedKeepsRest | lib/recommendable/ratable.rb:59-83 | the purge changes nothing else: other items' memberships and scores, other classes and similarity sets stay |
| Ratable.PurgedKeepsInvariants | lib/recommendable/ratable.rb:59-83 | the purge keeps the reverse index and the exclusivity of likes and dislikes |
| Calculations.ClassTally | lib/recommendable/helpers/calculations.rb:26-34 | one class's agreements minus disagreements lie within the first user's number of ratings there |
| Calculations.TallyOf | lib/recommendable/helpers/calculations.rb:25-34 | from the four sets of one class, the likes and dislikes counted are the first user's, and agreements minus disagreements are bounded by their sum |
| Calculations.ClassTallyFor | lib/recommendable/helpers/calculations.rb:20-34 | the four SINTERs and two SCARDs of one class give that class's tally |
| Calculations.Tallied | lib/recommendable/helpers/calculations.rb:19-35 | the loop's totals: the denominator is the first user's ratings, and the tally lies within it |
| Calculations.Similarity | lib/recommendable/helpers/calculations.rb:14-38 | with a positive denominator, similarity lies in [-1, 1] |
| Calculations.TalliedFrame | lib/recommendable/helpers/calculations.rb:19-35 | the tally reads only plain sets |
| Calculations.TallyOfAgreement | lib/recommendable/helpers/calculations.rb:26-31 | if the other user rated everything the same way, the tally equals the denominator |
| Calculations.TallyOfOpposition | lib/recommendable/helpers/calculations.rb:26-31 | if the other user rated everything the opposite way, the tally is minus the denominator |
| Calculations.SimilarityOfAgreement | lib/recommendable/helpers/calculations.rb:5-8 | same ratings give similarity 1.0 |
| Calculations.SimilarityOfOpposition | lib/recommendable/helpers/calculations.rb:5-8 | opposite ratings give similarity -1.0 |
| Calculations.SimilarityAsymmetric | lib/recommendable/helpers/calculations.rb:13 | two users whose similarities are 1.0 one way and 0.5 the other |
| Calculations.LikesOnlyTally | lib/recommendable/helpers/calculations.rb:26 | without dislikes, a class's tally is the number of items both like |
| Calculations.TalliedOneClass | lib/recommendable/helpers/calculations.rb:19-35 | over one class the totals are that class's |
| Calculations.SimilarityRatio | lib/recommendable/helpers/calculations.rb:37 | similarity is the tally over the denominator |
| Calculations.SimilarityBetween | lib/recommendable/helpers/calculations.rb:14-38 | the loop over the store, its three counters kept as one `Tally`, equals `Similarity` |
| Calculations.RatersOf | lib/recommendable/helpers/calculations.rb:55-62 | the users who rated one of the items, no more and no fewer |
| Calculations.RelevantNeedsRatings | lib/recommendable/helpers/calculations.rb:48-66 | a relevant user exists only if the user rated something, so every similarity call has a positive denominator |
| Calculations.RelevantShareAnItem | lib/recommendable/helpers/calculations.rb:48-66 | every relevant user rated an item the user rated |
| Calculations.RatersOfAdd | lib/recommendable/helpers/calculations.rb:55-62 | the raters of one more item add that item's raters |
| Calculations.RatersOfItems | lib/recommendable/helpers/calculations.rb:55-62 | the SUNION of the items' reverse sets equals `RatersOf` |
| Calculations.RelevantUsers | lib/recommendable/helpers/calculations.rb:48-66 | relevant_user_ids: the fold over the classes of everybody who rated an item the user rated; RelevantNeedsRatings and RelevantShareAnItem state it |
| Calculations.RelevantUserIds | lib/recommendable/helpers/calculations.rb:48-66 | the inject over the store equals the relevant users |
| Calculations.NewSimilarities | lib/recommendable/helpers/calculations.rb:68-71 | the entries the loop writes: the similarity to each relevant user but the user; SimilaritiesOfAdd, SimilaritiesOfSelf and NewSimilarityEntry state it |
| Calculations.SimilaritiesOf | lib/recommendable/helpers/calculations.rb:68-71 | an entry for each user but the user, scored with the similarity |
| Calculations.UpdateSimilarities | lib/recommendable/helpers/calculations.rb:42-81 | update_similarities_for changes no plain set and no sorted set but the user's similarities |
| Calculations.SimilaritiesOfAdd | lib/recommendable/helpers/calculations.rb:68-71 | one more user adds one entry |
| Calculations.SimilaritiesOfSelf | lib/recommendable/helpers/calculations.rb:69 | the user is skipped |
| Calculations.SimilarityFrame | lib/recommendable/helpers/calculations.rb:14-38 | similarities read only plain sets, so the ZADDs do not change later ones |
| Calculations.PlannedSimilarity | lib/recommendable/helpers/calculations.rb:68-71 | the similarity computed mid-loop equals the one planned on the starting state |
| Calculations.WriteSimilarity | lib/recommendable/helpers/calculations.rb:69-70 | one iteration writes the planned entry, or nothing for the user |
| Calculations.WriteSimilarities | lib/recommendable/helpers/calculations.rb:68-71 | the loop writes exactly the planned entries |
| Calculations.UpdateSimilaritiesFor | lib/recommendable/helpers/calculations.rb:42-81 | update_similarities_for over the store returns true and equals `UpdateSimilarities` |
| Calculations.SimilarityEntries | lib/recommendable/helpers/calculations.rb:68-78 | each surviving entry is a new similarity to a relevant user other than the user, or an old entry with its old score |
| Calculations.SimilaritiesMerged | lib/recommendable/helpers/calculations.rb:68-78 | the new similarity set is the trim of the old entries merged with the new ones |
| Calculations.TrimSimilarities | lib/recommendable/helpers/calculations.rb:73-78 | the trim of the similarity set by rank from kfn to length - knn - 1; TrimSimilaritiesKeeps, TrimKeepsNeighbours, TrimWithinMargin and TrimExactlyKnn state it |
| Calculations.TrimSimilaritiesKeeps | lib/recommendable/helpers/calculations.rb:77 | the trim only removes entries |
| Calculations.NewSimilarityEntry | lib/recommendable/helpers/calculations.rb:68-70 | a new entry is written exactly for each relevant user but the user |
| Calculations.UntrimmedSimilarities | lib/recommendable/helpers/calculations.rb:73 | without knn nothing is trimmed: the set gains exactly the relevant users other than the user |
| Calculations.UpdateKeepsSimilaritiesBounded | lib/recommendable/helpers/calculations.rb:68-78 | the update keeps every stored similarity in [-1, 1] |
| Calculations.TrimKeepsNeighbours | lib/recommendable/helpers/calculations.rb:73-78 | with zcard > knn + kfn, exactly the kfn lowest and knn highest entries survive |
| Calculations.TrimWithinMargin | lib/recommendable/helpers/calculations.rb:73-78 | with knn < zcard <= knn + kfn nothing is removed |
| Calculations.TrimExactlyKnn | lib/recommendable/helpers/calculations.rb:77 | with zcard == knn the stop is -1: only the kfn lowest survive, none without kfn |
| Calculations.SumScores | lib/recommendable/helpers/calculations.rb:154-159 | the sum of the users' similarity scores, a missing score counting 0.0; SumScoresRemove, SumScoresOfStrangers, SumScoresBounded and SumScoresConstant state it |
| Calculations.SumScoresRemove | lib/recommendable/helpers/calculations.rb:154-160 | the sum does not depend on the order of the members |
| Calculations.SumScoresOfStrangers | lib/recommendable/helpers/calculations.rb:155 | users without a similarity entry contribute 0 |
| Calculations.SumScoresBounded | lib/recommendable/helpers/calculations.rb:154-160 | with scores in [-1, 1] the sum is within the number of users |
| Calculations.SumScoresConstant | lib/recommendable/helpers/calculations.rb:154-160 | equal scores sum to their number times the score |
| Calculations.Predict | lib/recommendable/helpers/calculations.rb:145-166 | predict_for: the likers' similarities minus the dislikers', over their number, 0.0 when not finite; PredictBounded, PredictUnanimous and PredictOfStrangers state it |
| Calculations.PredictFrame | lib/recommendable/helpers/calculations.rb:145-166 | a prediction reads only the user's similarities and the item's two reverse sets |
| Calculations.PredictBounded | lib/recommendable/helpers/calculations.rb:145-166 | from similarities in [-1, 1] the prediction lies in [-1, 1] |
| Calculations.PredictUnanimous | lib/recommendable/helpers/calculations.rb:135-139 | likers with similarity 1.0 and dislikers with -1.0 give a prediction of 1.0 |
| Calculations.PredictOfStrangers | lib/recommendable/helpers/calculations.rb:164-165 | raters with no similarity entry, or none at all, give 0.0 |
| Calculations.SumScoresFor | lib/recommendable/helpers/calculations.rb:154-156 | the inject of ZSCOREs equals `SumScores` |
| Calculations.PredictFor | lib/recommendable/helpers/calculations.rb:145-166 | predict_for over the store equals `Predict` |
| Calculations.MostSimilar | lib/recommendable/helpers/calculations.rb:101 | ZREVRANGE of the similarity set from 0 to nn - 1, the most similar users first |
| Calculations.LeastSimilar | lib/recommendable/helpers/calculations.rb:102 | ZRANGE of the similarity set from 0 to nn - 1, the least similar users first |
| Calculations.NeighbourSets | lib/recommendable/helpers/calculations.rb:104-112 | sets_to_union: the most similar users' gemd sets, then the least similar users' disgemd sets; NeighbourUnion states what their union holds |
| Calculations.GemdSetsOf | lib/recommendable/helpers/calculations.rb:105-107 | the most similar users' gemd sets, in order |
| Calculations.DisgemdSetsOf | lib/recommendable/helpers/calculations.rb:110-112 | the least similar users' disgemd sets, in order |
| Calculations.Predictions | lib/recommendable/helpers/calculations.rb:119 | one prediction per candidate |
| Calculations.NeighbourSetsFor | lib/recommendable/helpers/calculations.rb:101-112 | the two injects over the store equal `NeighbourSets` |
| Calculations.CollectGemdSets | lib/recommendable/helpers/calculations.rb:105-107 | the first inject |
| Calculations.CollectDisgemdSets | lib/recommendable/helpers/calculations.rb:110-112 | the second inject |
| Calculations.PredictionsFor | lib/recommendable/helpers/calculations.rb:119 | the pairs computed equal `Predictions` |
| Calculations.ZAddPairs | lib/recommendable/helpers/calculations.rb:120-122 | the ZADD loop merges the pairs into the recommended set |
| Calculations.Candidates | lib/recommendable/helpers/calculations.rb:117-118 | the union of the neighbour sets minus the user's rated, hidden and bookmarked items; CandidatesFromNeighbours states it |
| Calculations.TrimRecommendations | lib/recommendable/helpers/calculations.rb:126-129 | the trim of the recommended set by rank from 0 to length - n - 1; TrimRecommendationsKeeps, TrimKeepsTop, TrimExactlyN and TrimFewKept state it |
| Calculations.StoreScores | lib/recommendable/helpers/calculations.rb:120-129 | the ZADDs of the predictions, the DEL of the temporary set and the trim; MergedScores and StoredScoreEntries state it |
| Calculations.RecommendFrom | lib/recommendable/helpers/calculations.rb:117-129 | the writes of one class once the sets to union are known; RecommendFromEntries, RecommendFromZFrame and RecommendFromSetFrame state it |
| Calculations.RecommendClass | lib/recommendable/helpers/calculations.rb:92-129 | one class of update_recommendations_for, with the early return of line 114 as None; EarlyReturnIffNoNeighbours and RecommendClassFrame state it |
| Calculations.UpdateRecommendations | lib/recommendable/helpers/calculations.rb:87-133 | update_recommendations_for over the classes in order, the first early return abandoning the rest; UpdateRecommendationsOutcome and RecommendedEntries state it |
| Calculations.RecommendClassFor | lib/recommendable/helpers/calculations.rb:92-129 | one class over the store equals `RecommendClass`, and false is the early return |
| Calculations.RecommendFromFor | lib/recommendable/helpers/calculations.rb:117-129 | the writes of one class over the store equal `RecommendFrom` |
| Calculations.StoreScoresFor | lib/recommendable/helpers/calculations.rb:120-129 | the ZADDs, the DEL and the optional trim over the store equal `StoreScores` |
| Calculations.UpdateRecommendationsFor | lib/recommendable/helpers/calculations.rb:87-133 | update_recommendations_for over the store equals `UpdateRecommendations` |
| Calculations.RecommendFromZFrame | lib/recommendable/helpers/calculations.rb:117-129 | one class's writes change no sorted set but its recommended set |
| Calculations.RecommendFromSetFrame | lib/recommendable/helpers/calculations.rb:117-124 | one class's writes leave every plain set as it was, and the temporary set deleted |
| Calculations.RecommendClassFrame | lib/recommendable/helpers/calculations.rb:92-129 | the same for a class that is not an early return |
| Calculations.EarlyReturnIffNoNeighbours | lib/recommendable/helpers/calculations.rb:114 | the early return happens exactly when the user's similarity set is empty |
| Calculations.UpdateRecommendationsOutcome | lib/recommendable/helpers/calculations.rb:114 | true exactly when there is no class or the user has a neighbour; an early return abandons the remaining classes and leaves the store as it was; similarities never change |
| Calculations.SUnionFrame | lib/recommendable/helpers/calculations.rb:117-118 | writing the temporary set does not change a union over other keys |
| Calculations.NeighbourUnion | lib/recommendable/helpers/calculations.rb:105-117 | an item is in the union exactly when a most similar user liked it or a least similar user disliked it |
| Calculations.RatedUnion | lib/recommendable/helpers/calculations.rb:92-97 | an item is in the rated sets' union exactly when the user liked, disliked, hid or bookmarked it |
| Calculations.CandidatesFromNeighbours | lib/recommendable/helpers/calculations.rb:104-118 | the candidates are the neighbours' items that the user has not liked, disliked, hidden or bookmarked |
| Calculations.RecommendFromEntries | lib/recommendable/helpers/calculations.rb:117-129 | each recommended entry is a candidate with its prediction or an older non-candidate entry with its old score |
| Calculations.RecommendFromStores | lib/recommendable/helpers/calculations.rb:117-118 | the candidates read back from the temporary set are those of the starting state |
| Calculations.PredictionsFrame | lib/recommendable/helpers/calculations.rb:145-166 | predictions read only the similarities and the reverse sets |
| Calculations.StoredScoreEntries | lib/recommendable/helpers/calculations.rb:120-128 | after the writes an entry has its new score if it got one, else its old score |
| Calculations.MergedScores | lib/recommendable/helpers/calculations.rb:120-128 | the recommended set is the trim of the old entries merged with the scores |
| Calculations.TrimRecommendationsKeeps | lib/recommendable/helpers/calculations.rb:128 | the trim only removes entries |
| Calculations.RecommendedEntries | lib/recommendable/helpers/calculations.rb:92-129 | every recommended entry after a class's update is a fresh candidate's prediction or an old non-candidate entry |
| Calculations.TrimKeepsTop | lib/recommendable/helpers/calculations.rb:126-129 | with zcard > R exactly the R highest recommendations survive |
| Calculations.TrimExactlyN | lib/recommendable/helpers/calculations.rb:128 | with zcard == R the stop is -1 and every recommendation is removed |
| Calculations.TrimFewKept | lib/recommendable/helpers/calculations.rb:128 | with zcard <= R / 2 the range resolves to nothing and the set is kept |
| Calculations.UpdateScore | lib/recommendable/helpers/calculations.rb:168-189 | update_score_for: no write without raters, otherwise the Wilson score of the item's votes in the score set; UpdateScoreGuard, UpdateScoreFrame and UpdateScoreIdempotent state it |
| Calculations.Phat | lib/recommendable/helpers/calculations.rb:179 | phat lies in [0, 1]; it is 0 exactly without likes and 1 exactly without dislikes |
| Calculations.RadicandPositive | lib/recommendable/helpers/calculations.rb:181-185 | for phat in [0, 1] the square root's argument is positive, so DomainError is never rescued |
| Calculations.UpdateScoreGuard | lib/recommendable/helpers/calculations.rb:175-187 | the write happens exactly when the item has raters, and then the entry is the Wilson formula on phat = likes / n |
| Calculations.UpdateScoreFrame | lib/recommendable/helpers/calculations.rb:187 | the update writes one entry of one sorted set and nothing else |
| Calculations.UpdateScoreIdempotent | lib/recommendable/helpers/calculations.rb:168-189 | recomputing a score just computed changes nothing |
| Calculations.UpdateScoreFor | lib/recommendable/helpers/calculations.rb:168-189 | update_score_for over the store equals `UpdateScore` |

## Left out

- Redis I/O and `pipelined`: every command is a method on the `Redis` object and runs alone. The model claims no atomicity, and no other client interleaves.
- Hider, Bookmarker and Recommender (lib/recommendable/rater/hider.rb and its siblings) are not part of this model. `unhide` and `unbookmark` are modelled as "remove if present and say whether it was", and `unrecommend` as a ZREM from the user's recommended set. That is all the hooks and `unrate` need from them.
- Calculations.WilsonScore: the Wilson formula (`Math.sqrt`, z = 1.96) is floating-point arithmetic. It is the configuration's function `wilson(phat, n)`. The guard, phat, the positive radicand and the write are modelled. Because the radicand is positive, the `DomainError` rescue cannot be reached.
- NaN and `finite?` are modelled as explicit cases over `real`. `similarity_between` requires a positive denominator, and its only caller is proved to meet it. The zero-rater case of `predict_for` gives 0.0.
- `Recommendable.query`, `gems`, `gems_in_common_with`, the `*_for` and `*_in_common_with` record finders, `gemd_by` and `disgemd_by` are ORM queries over ids. They are modelled only down to the ids they query. The `sort_by` of `top` is left out too, so `top` returns ids.
- The `to_i` conversion of ids under some ORMs is left out. Ids are strings.
- `classify`, `constantize` and `tableize` are library calls. They are parameters: `lookup` (where `None` is a NameError) and `Naming.tableize`.
- RaterNames.Classify: each `rescue NameError` in `method_missing` (lib/recommendable/rater.rb:66-90) wraps the whole `send`, so a NameError or NoMethodError raised inside the dispatched `*_for`, `*_count_for`, `*_ids_for` or `*_in_common_with` finder also ends in the superclass's NoMethodError. The model returns the `Call` whenever the class lookup succeeds, and does not model an error raised by the finder.
- The ORM-specific `before_destroy` wiring, the `hooks` gem machinery, `Recommendable.enqueue` and `auto_enqueue` are left out. Only the order of the hooks is modelled.
- `Recommendable.config` is the explicit value `Config`. The user count is `Config.userCount`.
- Key collisions: the store keeps keys apart by constructor. That is sound only under the conditions of KeyNames.NamesDistinct: no `:` in an id or table name, no class tabled `by`, and `tableize` one-to-one on the classes in use. A naming that breaks them makes Redis merge sets that the model keeps apart (ByTableCollides and SharedTableCollides show two such merges). That case is not modelled.
- `redis.keys` with a glob pattern is modelled as a predicate over the keys that exist (`SetKeysWhere`).
- The commands collected for the pipeline are sets, not arrays. Their order does not change the result, but the model does not show that order.
- Ratable.IsRecommendable: the library answers `recommendable?` through a method defined on the class. A class stays recommendable after a later `recommends` resets the list. Here `recommendable?` is "listed in `ratableClasses`", so the model follows the list after a reset.
- Duplicate entries in `ratableClasses` are allowed, and the counts lemmas account for them (`Occurrences`). The recommendation and similarity lemmas read the list as it is.
- `predict_for` subtracts inside its second `inject`. It is modelled as the sum over likers minus the sum over dislikers, which is the same value in exact arithmetic. Floating-point rounding is not modelled.
- Ruby's `respond_to?` returns nil rather than false when a class is found but is not recommendable. Both are modelled as `false`.

## Findings

| source | as written | input that shows it | evidently intended | confidence | as-written member | corrected member |
|---|---|---|---|---|---|---|
| lib/recommendable/rater.rb:95-107 | `respond_to?` tries the in_common_with, ids and plain patterns, but not the `_count` pattern that `method_missing` serves at line 72 | `gemd_movies_count`, where `movies` names a ratable class and `movies_count` names no class: `method_missing` calls `gemd_count_for(Movie)`, while `respond_to?` reads the plain pattern, looks up `movies_count`, gets a NameError and answers false | `respond_to?` answers true for every name `method_missing` dispatches | not executed | RaterNames.RespondsToMissesCount | RaterNames.RespondsToCorrectedAgrees |
