# A verified model of the eshop recommendation engine

This project models the recommendation engine of the eshop web shop in Dafny
and proves what its code promises. The engine's components are in-memory
algorithms wrapped around database queries. The model takes the query results
as plain values: sequences of rows, maps from ids to counts, and the current
time as whole seconds since the epoch. It verifies the logic that runs on
those values.

There is one module per component:

- `Common` (`common.dfy`): options, results, the Python exceptions the core
  raises, list prefixes (`xs[:n]`), duplicate-freedom, and the two pieces of
  library mathematics, ln(1 + n) and sqrt. Both are function parameters
  constrained by the predicates `IsLog1p` and `IsSqrt`, never axioms.
- `Ranking` (`ranking.dfy`): Python's stable `sort(key=score, reverse=True)`
  on (score, item) pairs and the `[:limit]` slice that ends every recommender.
- `Models` and `CategoryTree` (`models.dfy`, `category_tree.dfy`): the
  model-level helpers in `models.py`. These are tag parsing, discounts, cart
  totals and the personalised offer (a class whose `apply_to_order` updates
  its fields), plus the category tree walks (path, breadcrumb, depth, depth
  validation, products of a subtree).
- `CacheKeys` and `Cache` (`cache_keys.dfy`, `cache.dfy`): the in-memory tier
  of `RecommendationCache`.
  - Cache keys are independent of keyword order, and a hashed key escapes
    invalidation.
  - The cache is a class with a dictionary of (value, expiry) entries and the
    hit, miss and eviction counters.
  - It has lazy expiry on `get`, the capacity sweep past 1000 entries, and
    substring invalidation.
  - The dictionary's insertion order is part of the state, so the sweep's
    stable sort by expiry breaks ties the way Python does.
- `Association` and `CartRecommender` (`association.dfy`,
  `cart_recommender.dfy`): the market-basket engine of
  `ShoppingCartRecommender`.
  - The co-occurrence matrix (plain and time-decayed) is symmetric, and with
    distinct items per order it counts the orders holding both products.
  - The support and confidence gates and the confidence × lift × ln(1 + co)
    score.
  - Cart, complementary and abandoned-cart recommendations, and the
    two-pass category diversification.
- `Neighbors` and `Vectors` (`neighbors.dfy`, `vectors.dfy`): the
  neighbour-based collaborative filter (`AdvancedNeighborsRecommender`).
  - Weighted user profiles, and cosine similarity on the common items. The
    similarity is bounded by 1 through the Cauchy–Schwarz inequality.
  - Neighbour selection: minimum common items, threshold, top 50.
  - Similarity-weighted averaging of the neighbours' scores.
- `Preference` (`preference.dfy`): the feature engineering of
  `LinearSVMRecommender`.
  - The user profile and the nine-component feature vector with its one-hot
    price tier.
  - The guards and labels of the training set, and the ranking of candidates
    by a decision function given as a parameter.
  - The recency component is a numpy float. At a mean recency of -30 days
    it is positive infinity, and the classifier then raises ValueError.
- `Hybrid` (`hybrid.dfy`): `HybridRecommender`.
  - The segment router and the new-user split.
  - The rank-normalised weighted blend for established users and the
    category and price-band diversity filter.
  - The component recommenders are inputs. The SVM one may raise, and its
    error propagates out of the established path as in the source.
  - The weight table, a class field that `update_weights` renormalises.
- `Analytics` (`analytics.dfy`): the best-seller and trending rollups.
  - Window mapping, grouping and ranking.
  - The velocity score with its logarithmic recency boost.
  - Per-category filtering.
  - Delete-then-insert publication into the stored table, which is
    idempotent.
- `ABTesting` (`ab_testing.dfy`): the A/B testing framework, a class holding
  the experiments, the active set and the result rows.
  - Traffic validation and bucketing by cumulative percentage; the MD5 hash
    is a parameter, so the same (user, experiment) always gets the same
    variant.
  - Per-event counter updates, the lift formula and the auto-stop rule.
- `Metrics` (`metrics.dfy`): precision@k, recall@k, diversity and coverage
  from the test suite's `RecommendationMetrics`, with their bounds.

Where a loop updates state in the source, the model has a `method` with a
loop. Each such method is proved equal to a specification function, and the
lemmas state the properties of that function.

## Model

| member | source | states |
|---|---|---|
| Models.Strip | src/eshop/models.py:116-118 | `str.strip` on one tag: the result is the middle of the string between a whitespace-only prefix and a whitespace-only suffix, and neither of its ends is whitespace |
| Models.StripInfix | src/eshop/models.py:116-118 | stripping never introduces a character, so a comma-free piece stays comma-free |
| Models.StripStripped | src/eshop/models.py:116-118 | a string with no whitespace at either end is left unchanged |
| Models.StripIdempotent | src/eshop/models.py:116-118 | stripping twice gives the same as stripping once |
| Models.Split | src/eshop/models.py:116-118 | `tags.split(',')` yields at least one piece and no piece contains the separator |
| Models.JoinSplit | src/eshop/models.py:116-118 | joining the pieces of a split with the separator gives back the original string |
| Models.SplitNoSep | src/eshop/models.py:116-118 | a string without the separator splits into itself alone |
| Models.SplitAt | src/eshop/models.py:116-118 | splitting `a + sep + b` with a separator-free `a` gives `a` followed by the pieces of `b` |
| Models.SplitJoin | src/eshop/models.py:116-118 | splitting a join of separator-free pieces gives back exactly those pieces |
| Models.StripAll | src/eshop/models.py:118 | the list comprehension strips every piece, keeping count and order |
| Models.GetTagsList | src/eshop/models.py:116-118 | no tags (None or empty) gives the empty list, and only then; every tag is comma-free and stripped |
| Models.TagsRoundTrip | src/eshop/models.py:116-118 | clean comma-free tags written as a comma-separated string come back as the same list |
| Models.TagCount | src/eshop/models.py:116-118 | the number of pieces is one more than the number of commas |
| Models.GetDiscountedPrice | src/eshop/models.py:120-124 | no discount leaves the price; a positive percentage takes exactly price × percentage / 100 off; with a percentage of at most 100 the result lies in [0, price], strictly below it when both are positive |
| Models.Subtotal | src/eshop/models.py:184-186 | an item costs its product's discounted price times its quantity; never negative for a well-formed item (shown inside `Models.CartBounds`) |
| Models.GetTotal | src/eshop/models.py:167-169 | the cart total is the sum of the items' subtotals; `Models.CartConcat` and `Models.CartBounds` state that it is additive and never negative |
| Models.GetItemCount | src/eshop/models.py:171-173 | the item count is the sum of the quantities; `Models.CartConcat`, `Models.CartBounds` and `Models.CountNonNegative` state that it is additive, non-negative and at least each quantity |
| Models.CartConcat | src/eshop/models.py:167-173 | item count and total are additive over a split of the cart's items |
| Models.CartBounds | src/eshop/models.py:167-173 | with non-negative quantities, prices and discounts of at most 100% the total is never negative and the count is at least each item's quantity |
| Models.CountNonNegative | src/eshop/models.py:171-173 | with non-negative quantities the item count is non-negative |
| Models.PersonalizedOffer.constructor | src/eshop/models.py:223-232 | a new offer has the 10% default discount, is unused and has no use time and no order |
| Models.PersonalizedOffer.ApplyToOrder | src/eshop/models.py:249-253 | afterwards the offer is used, stamped with the time and the order, its other fields unchanged, and invalid at every later time |
| Models.PersonalizedOffer.IsValid | src/eshop/models.py:245-247 | an offer is valid exactly when it is unused and `now` is before its expiry; `ApplyToOrder` ensures it is invalid at every time afterwards |
| CategoryTree.Parent | src/eshop/models.py:16 | `category.parent` is the existing row whose id is the category's `parent_id`, and absent otherwise |
| CategoryTree.IsMainCategory | src/eshop/models.py:20-22 | a main category is one with no parent id; `CategoryTree.MainCategoryPath` states that it is its own path, at depth 0 |
| CategoryTree.PathOf | src/eshop/models.py:24-31 | the path ends at the category itself, starts at a category without a parent, and each element is the parent of the next |
| CategoryTree.GetPath | src/eshop/models.py:24-31 | the upward walk that inserts each ancestor at the front returns exactly the root-to-category path |
| CategoryTree.GetDepth | src/eshop/models.py:38-45 | the number of parent steps is the path length minus one |
| CategoryTree.MainCategoryPath | src/eshop/models.py:20-31 | a main category (no parent) is its own whole path, so its depth is 0 |
| CategoryTree.ChildDepth | src/eshop/models.py:38-45 | a child is exactly one level deeper than its parent |
| CategoryTree.Names | src/eshop/models.py:36 | the names of the path's categories, in path order |
| CategoryTree.GetBreadcrumb | src/eshop/models.py:33-36 | the breadcrumb is the path's names joined by " > " |
| CategoryTree.BreadcrumbStep | src/eshop/models.py:33-36 | a root's breadcrumb is its name; a child's is its parent's breadcrumb, " > " and its own name |
| CategoryTree.ValidateDepth | src/eshop/models.py:47-53 | raises ValueError exactly when a non-zero parent id names an existing parent of depth at least max_depth − 1; when it passes with a parent the new category's path fits within max_depth |
| CategoryTree.ValidateDepthAdmitsCycle | src/eshop/models.py:47-53 | re-parenting a main category under its own child passes `validate_depth` with the default maximum 3, and the saved table has a cycle: no rank orders it |
| CategoryTree.ValidateParent | src/eshop/models.py:47-53 | the depth check plus a refusal of a parent that is the category itself or lies below it: it fails exactly in those two cases, and when it passes the re-parented table is still free of cycles |
| CategoryTree.IsUnder | src/eshop/models.py:38-45 | the upward walk from `d` meets `a` exactly when `d` is `a` or one of its descendants |
| CategoryTree.RerankedRanks | src/eshop/models.py:47-53 | replacing a category's row by one whose parent does not lie below it leaves the table free of cycles |
| CategoryTree.UnderRank | src/eshop/models.py:55-70 | a descendant never ranks below its ancestor, the measure that makes the walks finite |
| CategoryTree.Children | src/eshop/models.py:16 | `children` are exactly the rows whose parent is the category |
| CategoryTree.SubtreeIds | src/eshop/models.py:60-67 | the worklist walk collects exactly the category and all its descendants |
| CategoryTree.WorklistStep | src/eshop/models.py:64-67 | popping one category and queueing its children keeps the walk's invariant |
| CategoryTree.Covered | src/eshop/models.py:64-67 | a set that holds the root and is closed under children holds every descendant |
| CategoryTree.InCategories | src/eshop/models.py:70 | the products whose category id is in the set, in catalogue order |
| CategoryTree.GetAllProducts | src/eshop/models.py:55-70 | without subcategories the category's own products; with them, exactly the products of the category or one of its descendants |
| CacheKeys.StrLess | src/eshop/recommendation_cache.py:41 | Python's ordering of strings, which `sorted` applies to the keyword names: a proper prefix comes first, otherwise the first differing character decides |
| CacheKeys.StrLessIrreflexive | src/eshop/recommendation_cache.py:41 | no name sorts before itself |
| CacheKeys.StrLessTransitive | src/eshop/recommendation_cache.py:41 | the string order is transitive |
| CacheKeys.StrLessTotal | src/eshop/recommendation_cache.py:41 | any two different names are ordered one way or the other |
| CacheKeys.StrLessAsymmetric | src/eshop/recommendation_cache.py:41 | two names are never ordered both ways |
| CacheKeys.SortedByName | src/eshop/recommendation_cache.py:41 | the sorted order of `kwargs.items()`: names strictly increase |
| CacheKeys.InsertByName | src/eshop/recommendation_cache.py:41 | inserting one argument keeps every argument and adds exactly the new one |
| CacheKeys.InsertByNameSorted | src/eshop/recommendation_cache.py:41 | inserting an argument with a new name into a name-sorted list keeps it sorted |
| CacheKeys.SortKwargs | src/eshop/recommendation_cache.py:41 | `sorted(kwargs.items())` is a permutation of the arguments |
| CacheKeys.SortKwargsSorted | src/eshop/recommendation_cache.py:41 | with distinct names (as Python guarantees) the result is sorted by name |
| CacheKeys.SortedHeads | src/eshop/recommendation_cache.py:41 | two sorted arrangements of the same arguments start with the same argument |
| CacheKeys.TailsAlike | src/eshop/recommendation_cache.py:41 | removing equal first arguments leaves the same remaining arguments |
| CacheKeys.SortedUnique | src/eshop/recommendation_cache.py:41 | two sorted arrangements of the same arguments are identical |
| CacheKeys.KeyData | src/eshop/recommendation_cache.py:42 | the key data is the key type and a colon followed by the `name=value` pieces |
| CacheKeys.GenerateCacheKey | src/eshop/recommendation_cache.py:38-49 | the key starts with `type:`; key data of at most 250 characters is the key itself, longer key data becomes `type:hash:` and its digest |
| CacheKeys.CacheKeyOrderIndependent | src/eshop/recommendation_cache.py:38-49 | two calls passing the same keyword arguments in any order get the same key |
| CacheKeys.MultiplicityTwo | src/eshop/recommendation_cache.py:41 | an element at two positions occurs at least twice |
| CacheKeys.MultiplicityOne | src/eshop/recommendation_cache.py:41 | with distinct names each argument occurs exactly once |
| CacheKeys.Contains | src/eshop/recommendation_cache.py:138 | `pattern in key`: the pattern occurs at some position of the key |
| CacheKeys.ContainsInfix | src/eshop/recommendation_cache.py:138 | a string contains every one of its infixes |
| CacheKeys.JoinContainsLast | src/eshop/recommendation_cache.py:42 | a join contains its last piece |
| CacheKeys.ContainsExtend | src/eshop/recommendation_cache.py:138 | containment survives adding text on either side |
| CacheKeys.JoinContainsPart | src/eshop/recommendation_cache.py:42 | a join contains each of its pieces |
| CacheKeys.RenderHas | src/eshop/recommendation_cache.py:42 | the k-th rendered piece is `name=value` of the k-th argument |
| CacheKeys.ShortKeyContainsEveryArgument | src/eshop/recommendation_cache.py:38-49 | a key that is not hashed contains `name=value` for every argument, the pattern the invalidation helpers pass to `invalidate` |
| CacheKeys.IsHexDigit | src/eshop/recommendation_cache.py:46 | the characters of a hex digest |
| CacheKeys.NoCharNoContains | src/eshop/recommendation_cache.py:138 | a string without some character of the pattern does not contain the pattern |
| CacheKeys.HashedKeyEscapesInvalidation | src/eshop/recommendation_cache.py:44-49 | once a key is hashed, no pattern containing '=' matches it (the key type has no '=' and the digest is hex), so invalidating by `user_id=...` misses hashed keys |
| Cache.Live | src/eshop/recommendation_cache.py:122-131 | the entries kept by the expiry purge: exactly those expiring after `now`, unchanged |
| Cache.Surviving | src/eshop/recommendation_cache.py:133-141 | the entries kept by an invalidation: exactly those whose key does not contain the pattern, unchanged |
| Cache.Drop | src/eshop/recommendation_cache.py:118-119 | deleting a set of keys keeps exactly the other keys, with their entries unchanged |
| Cache.Remaining | src/eshop/recommendation_cache.py:129-130 | the dictionary's key order after deletions: exactly the keys not deleted, in their previous order |
| Cache.KeyOrderRemaining | src/eshop/recommendation_cache.py:129-130 | after deletions the key order still lists every key of the dictionary once |
| Cache.Assign | src/eshop/recommendation_cache.py:103-106 | `d[key] = e` holds `e` under `key` and keeps every other entry; a new key goes to the end of the key order, a present one keeps its place |
| Cache.ByExpiryKeys | src/eshop/recommendation_cache.py:114-117 | `sorted(keys, key=expires_at)` holds exactly the dictionary's keys |
| Cache.ByExpiryOrdered | src/eshop/recommendation_cache.py:114-117 | the sorted keys are in non-decreasing order of expiry |
| Cache.ByExpiryTies | src/eshop/recommendation_cache.py:114-117 | the sort is stable: keys of equal expiry keep the dictionary's insertion order |
| Cache.SweepKeysCount | src/eshop/recommendation_cache.py:118 | `sorted_keys[:100]` names exactly 100 keys of a dictionary holding at least 100 |
| Cache.SweepKeysEarliest | src/eshop/recommendation_cache.py:114-118 | every key in `sorted_keys[:n]` expires no later than every key left out |
| Cache.Without | src/eshop/recommendation_cache.py:130 | `del` of a present key removes exactly that key, one entry fewer |
| Cache.DeleteKeys | src/eshop/recommendation_cache.py:129-131 | the deletion loop removes exactly the listed keys, leaves the other entries unchanged and counts one deletion per removed entry |
| Cache.SweepEarliest | src/eshop/recommendation_cache.py:112-120 | the sweep deletes the first `n` keys of the stable expiry sort, exactly `n` entries, and keeps the key order of the rest |
| Cache.TtlOrDefault | src/eshop/recommendation_cache.py:82-83 | a missing TTL becomes the default TTL |
| Cache.HitRate | src/eshop/recommendation_cache.py:153-154 | the hit rate is hits over requests and lies in [0, 1] |
| Cache.PurgeWhenFull | src/eshop/recommendation_cache.py:109-110 | past 1000 entries the expired ones are deleted and counted; the key order is kept |
| Cache.SweepWhenFull | src/eshop/recommendation_cache.py:112-120 | if the dictionary still passes 1000 entries the sweep runs; afterwards it holds at most 1000 and its key order is kept |
| Cache.StoreFacts | src/eshop/recommendation_cache.py:100-120 | a store from at most 1000 entries keeps the key order and the bound, keeps only stored entries, changes nothing else below the capacity and removes every expired entry above it |
| Cache.StoreSweepsEarliest | src/eshop/recommendation_cache.py:108-120 | when the purge leaves more than 1000 entries, exactly 100 go, each expiring no later than every entry kept |
| Cache.RecommendationCache.constructor | src/eshop/recommendation_cache.py:20-36 | a new cache is empty with all counters 0 and the given default TTL |
| Cache.RecommendationCache.Get | src/eshop/recommendation_cache.py:51-78 | a live entry is returned and counts one hit; an expired one is deleted and counts one eviction and one miss; an absent one counts one miss; nothing else changes |
| Cache.RecommendationCache.Set | src/eshop/recommendation_cache.py:80-98 | `set` stores with the given or default TTL, leaves hits and misses alone, keeps the capacity bound and answers True |
| Cache.RecommendationCache.StoreInMemory | src/eshop/recommendation_cache.py:100-120 | the dictionary and key order become the write, the purge and the sweep in turn; each removal counted; the size bound is kept; with a non-positive TTL on a full dictionary the new entry itself is removed |
| Cache.RecommendationCache.Shrink | src/eshop/recommendation_cache.py:108-120 | the two capacity checks after the write: the purge and then the sweep, each removal counted, at most 1000 entries left |
| Cache.RecommendationCache.EvictExpired | src/eshop/recommendation_cache.py:122-131 | the dictionary keeps exactly the entries expiring after `now`, in their order, and evictions grow by the number removed |
| Cache.RecommendationCache.Invalidate | src/eshop/recommendation_cache.py:133-141 | removes exactly the keys containing the pattern; other entries and all counters are unchanged |
| Cache.RecommendationCache.GetStats | src/eshop/recommendation_cache.py:151-163 | reports the counters, the entry count and the request total; the hit rate is 0 without requests and hits/requests otherwise, within [0, 1] |
| Cache.RecommendationCache.Clear | src/eshop/recommendation_cache.py:165-179 | the dictionary is empty and every counter is 0 |
| Cache.SetThenGet | src/eshop/recommendation_cache.py:51-120 | `set(k, v, ttl)` then `get(k)` before the expiry returns v and counts one hit when the store left k in the dictionary, and otherwise returns None and counts one miss; k is always left when it was present or the dictionary had room |
| Association.Visit | src/eshop/shopping_cart_recommender.py:183-185 | one visit adds 1 to the entries of `(p, q)` and `(q, p)` when the two differ, and changes nothing else |
| Association.BuildAssociationMatrix | src/eshop/shopping_cart_recommender.py:175-187 | every entry equals the pair's co-occurrence count over all baskets, and a pair is present exactly when that count is positive |
| Association.CountOrder | src/eshop/shopping_cart_recommender.py:181-185 | the two inner loops add exactly one basket's pair counts, keeping only positive entries |
| Association.CountRow | src/eshop/shopping_cart_recommender.py:182-185 | the innermost loop adds exactly position `i`'s pairs with every later position |
| Association.DecayFactor | src/eshop/shopping_cart_recommender.py:197-198 | `1/(1 + days/30)` raises ZeroDivisionError exactly at -30 days; for an order in the past it lies in (0, 1], strictly below 1 once it is a day old |
| Association.Baskets | src/eshop/shopping_cart_recommender.py:195 | the product lists of the dated orders, in order |
| Association.VisitDecayed | src/eshop/shopping_cart_recommender.py:203-205 | one visit adds the decay factor to `(p, q)` and `(q, p)` when the two differ, and changes nothing else |
| Association.Repeat | src/eshop/shopping_cart_recommender.py:204-205 | adding a weight once per visit |
| Association.RepeatIsProduct | src/eshop/shopping_cart_recommender.py:204-205 | adding `w` once per visit adds `w` times the number of visits |
| Association.WeightedInnerRepeat | src/eshop/shopping_cart_recommender.py:202-205 | one position's weighted visits add the weight once per counted pair |
| Association.WeightedOuterRepeat | src/eshop/shopping_cart_recommender.py:201-205 | one basket's weighted visits add the weight once per counted pair |
| Association.AddDecayedBasket | src/eshop/shopping_cart_recommender.py:201-205 | a basket adds its decay factor once per occurrence of each pair, and adds exactly the pairs it holds |
| Association.BuildDecayedMatrix | src/eshop/shopping_cart_recommender.py:189-207 | fails with ZeroDivisionError exactly when some order is 30 days in the future; otherwise each entry is the decay-weighted co-occurrence and a pair is present exactly when it co-occurs at all |
| Association.DecayedStep | src/eshop/shopping_cart_recommender.py:195-205 | adding the next order to the prefix adds exactly its own weighted pairs |
| Association.CountProducts | src/eshop/shopping_cart_recommender.py:166-169 | each product's count is its number of occurrences over all baskets, and only occurring products have counts |
| Association.NonEmptyOrders | src/eshop/shopping_cart_recommender.py:156-160 | exactly the orders with items are kept |
| Association.GetAssociationData | src/eshop/shopping_cart_recommender.py:150-173 | orders without items are dropped; the matrix, the product counts and the order total are computed over the remaining baskets |
| Association.InnerSymmetric | src/eshop/shopping_cart_recommender.py:184-185 | one position's visits count `(a, b)` as often as `(b, a)` |
| Association.OuterSymmetric | src/eshop/shopping_cart_recommender.py:181-185 | one basket counts `(a, b)` as often as `(b, a)` |
| Association.CoOccurrence | src/eshop/shopping_cart_recommender.py:175-187 | defines the co-occurrence count of a pair over the orders; its properties are the ensures of Association.CoOccurrenceSymmetric, Association.CoOccurrenceNoSelfPair, Association.CoOccurrenceCountsOrders and Association.CoOccurrenceAtMostCount |
| Association.CoOccurrenceSymmetric | src/eshop/shopping_cart_recommender.py:175-187 | the matrix is symmetric |
| Association.InnerNoSelf | src/eshop/shopping_cart_recommender.py:183 | one position's visits never count a product paired with itself |
| Association.OuterNoSelf | src/eshop/shopping_cart_recommender.py:183 | one basket never counts a product paired with itself |
| Association.CoOccurrenceNoSelfPair | src/eshop/shopping_cart_recommender.py:175-187 | no product is ever paired with itself |
| Association.MatrixShape | src/eshop/shopping_cart_recommender.py:175-187 | the returned matrix is symmetric and has no diagonal entry |
| Association.InnerDistinct | src/eshop/shopping_cart_recommender.py:181-185 | with distinct items, one position's visits count a pair at most once |
| Association.OuterDistinct | src/eshop/shopping_cart_recommender.py:181-185 | with distinct items, one basket counts a pair once when some two positions hold it, otherwise zero times |
| Association.BasketDistinct | src/eshop/shopping_cart_recommender.py:181-185 | with distinct items, a basket counts a pair once exactly when it holds both products |
| Association.CoOccurrenceCountsOrders | src/eshop/shopping_cart_recommender.py:175-187 | with distinct items per basket, the entry for two products is the number of orders holding both |
| Association.DistinctMultiplicity | src/eshop/shopping_cart_recommender.py:167-169 | with distinct items a product occurs once or not at all |
| Association.OccurrencesCountOrders | src/eshop/shopping_cart_recommender.py:166-169 | with distinct items, a product's count is the number of orders holding it |
| Association.CoOccurrenceAtMostCount | src/eshop/shopping_cart_recommender.py:218-220 | with distinct items per basket a pair never co-occurs more often than its anchor occurs, so the confidence is at most 1 |
| Association.AssociationScore | src/eshop/shopping_cart_recommender.py:209-233 | defines the association score of an anchor and a candidate: 0 below the support or the confidence, otherwise confidence × lift × ln(1 + co); its properties are the ensures of Association.ScoreGates, Association.ScoreIncreasing, Association.ScoreStrictlyIncreasing and Association.FilterKeepsScores |
| Association.ScoreGates | src/eshop/shopping_cart_recommender.py:209-233 | the score is never negative, and positive exactly when the support gate and the confidence gate both pass |
| Association.CountOf | src/eshop/shopping_cart_recommender.py:219 | a product's order count, or 1 when it has none; it is always positive, so the confidence never divides by zero |
| Association.Confidence | src/eshop/shopping_cart_recommender.py:220 | co-occurrences over the anchor's count; `Association.CoOccurrenceAtMostCount` bounds the co-occurrence by the anchor's count, so it is at most 1 |
| Association.ScoreOf | src/eshop/shopping_cart_recommender.py:209-233 | zero below either gate, otherwise confidence × lift × ln(1 + co); `Association.ScoreGates`, `Association.ScoreIncreasing` and `Association.ScoreStrictlyIncreasing` state its sign and its growth |
| Association.ScoreIncreasing | src/eshop/shopping_cart_recommender.py:209-233 | with the counts fixed, a larger co-occurrence never lowers the score, and raises it once the smaller one passes the gates |
| Association.ScoreStrictlyIncreasing | src/eshop/shopping_cart_recommender.py:209-233 | past the gates the score strictly increases with the co-occurrence |
| Association.ScoreMonotone | src/eshop/shopping_cart_recommender.py:231 | confidence × lift × ln(1 + co) grows with the confidence and the logarithm |
| Association.FilterBySupport | src/eshop/shopping_cart_recommender.py:261-263 | keeps exactly the entries at or above the minimum support, unchanged |
| Association.FilterKeepsScores | src/eshop/shopping_cart_recommender.py:261-263 | filtering by support changes no association score, since below the support the score is 0 either way |
| CartRecommender.ScaledScore | src/eshop/shopping_cart_recommender.py:128-131 | weighting an association score by a positive factor keeps it non-negative and positive exactly when the score is |
| CartRecommender.AnchorScorePositive | src/eshop/shopping_cart_recommender.py:54-65 | the summed score of a target against a list of anchor products is non-negative, and positive exactly when some anchor's association score with the target is positive |
| CartRecommender.AnchorTerms | src/eshop/shopping_cart_recommender.py:55-63 | one term per anchor, each the association score of that anchor with the target |
| CartRecommender.AnchorScoreTerms | src/eshop/shopping_cart_recommender.py:54-63 | the accumulated score equals the weighted sum of the per-anchor terms |
| CartRecommender.ScaledSumPositive | src/eshop/shopping_cart_recommender.py:54-65 | a positively weighted sum of non-negative terms is non-negative, and positive exactly when one term is |
| CartRecommender.SumAnchorScores | src/eshop/shopping_cart_recommender.py:54-63 | the accumulation loop computes exactly the weighted anchor score |
| CartRecommender.CartScore | src/eshop/shopping_cart_recommender.py:53-63 | defines a candidate's cart score: the sum of its association scores with every cart item; its properties are the ensures of CartRecommender.CartScored and CartRecommender.CartScoredComplete |
| CartRecommender.CartScored | src/eshop/shopping_cart_recommender.py:49-73 | every scored entry is a candidate outside the cart whose cart score is positive, and carries that score |
| CartRecommender.CartScoredComplete | src/eshop/shopping_cart_recommender.py:49-73 | every candidate outside the cart with a positive cart score is among the scored entries |
| CartRecommender.GetCartRecommendations | src/eshop/shopping_cart_recommender.py:27-80 | an empty cart gives no recommendations; otherwise the first `limit` candidates by descending score, or the diversified ranking when asked |
| CartRecommender.CartRecommendationsRanked | src/eshop/shopping_cart_recommender.py:69-80 | at most `limit` products, each a candidate outside the cart with a positive score, in non-increasing score order |
| CartRecommender.CartRecommendationsComplete | src/eshop/shopping_cart_recommender.py:65-80 | when the limit leaves room for every scored candidate, each qualifying candidate is recommended |
| CartRecommender.ComplementaryScored | src/eshop/shopping_cart_recommender.py:88-103 | every entry is a candidate other than the product itself, with a positive association score that it carries |
| CartRecommender.GetComplementaryProducts | src/eshop/shopping_cart_recommender.py:82-106 | the result is the first `limit` complementary candidates by descending score |
| CartRecommender.ComplementaryRanked | src/eshop/shopping_cart_recommender.py:101-106 | at most `limit` products other than the given one, each with a positive score, in non-increasing score order |
| CartRecommender.LastFive | src/eshop/shopping_cart_recommender.py:134 | `purchase_history[-5:]`: the last min(5, n) entries of the history, which comes newest first |
| CartRecommender.LastFiveMissesNewest | src/eshop/shopping_cart_recommender.py:134 | past five purchases of distinct products the slice leaves out the most recent one, and every purchase it leaves out is at least as recent as every one it keeps |
| CartRecommender.RecentFive | src/eshop/shopping_cart_recommender.py:134 | the corrected slice `[:5]`: a prefix of the history of length min(5, n) |
| CartRecommender.RecentFiveNewest | src/eshop/shopping_cart_recommender.py:134 | the corrected slice keeps the most recent purchase, and every purchase it keeps is at least as recent as every one it leaves out |
| CartRecommender.RecoveryCandidates | src/eshop/shopping_cart_recommender.py:144-145 | the recovering candidates, a sub-list of the candidates |
| CartRecommender.RecoveryCandidatesMembers | src/eshop/shopping_cart_recommender.py:121-145 | a product is kept exactly when it is a candidate, neither abandoned nor purchased, with a positive recovery score |
| CartRecommender.Kept | src/eshop/shopping_cart_recommender.py:144-145 | the candidates whose id is in the set, never more than the candidates |
| CartRecommender.KeptMembers | src/eshop/shopping_cart_recommender.py:144-145 | a product is kept exactly when it is a candidate whose id is in the set |
| CartRecommender.KeptAgree | src/eshop/shopping_cart_recommender.py:144-145 | two id sets that agree on every candidate keep the same list |
| CartRecommender.KeptRecovery | src/eshop/shopping_cart_recommender.py:139-145 | filtering by the ids of the recovery score table gives the recovering candidates |
| CartRecommender.RecoveryScore | src/eshop/shopping_cart_recommender.py:126-138 | defines a candidate's recovery score: 1.5 times its association with each abandoned item plus its association with each item of `purchase_history[-5:]`; its properties are the ensures of CartRecommender.ScoreRecovery and CartRecommender.RecoveryScored |
| CartRecommender.RecoveryScored | src/eshop/shopping_cart_recommender.py:119-145 | the recovering candidates, each paired with its own recovery score |
| CartRecommender.RecoveryScoredUnique | src/eshop/shopping_cart_recommender.py:119-145 | any pairing of the recovering candidates with their own scores is that list |
| CartRecommender.ScoreRecovery | src/eshop/shopping_cart_recommender.py:119-141 | the score table holds a candidate exactly when it recovers, and each entry is its recovery score (abandoned items weighted 1.5, the history slice `[-5:]` 1, which holds the five oldest purchases because the history comes newest first) |
| CartRecommender.GetAbandonedCartRecovery | src/eshop/shopping_cart_recommender.py:108-148 | as written: the first `limit` recovering candidates in input order, whatever their scores |
| CartRecommender.StampRecovered | src/eshop/shopping_cart_recommender.py:144-145 | as written: the recovering candidates, each paired with the one score left over from the scoring loop |
| CartRecommender.ScoreRecovered | src/eshop/shopping_cart_recommender.py:144-145 | corrected: each recovering candidate paired with its own score from the table |
| CartRecommender.Stamp | src/eshop/shopping_cart_recommender.py:144-145 | the products in order, all with the same score |
| CartRecommender.GetAbandonedCartRecoveryRanked | src/eshop/shopping_cart_recommender.py:108-148 | corrected: the first `limit` recovering candidates by descending recovery score |
| CartRecommender.RecoveryIgnoresScores | src/eshop/shopping_cart_recommender.py:144-148 | two recovering candidates where the second scores higher: the code as written returns them in input order, the ranked version puts the higher one first |
| CartRecommender.RecoveryScoredPair | src/eshop/shopping_cart_recommender.py:119-145 | two recovering candidates are kept in order with their own scores |
| CartRecommender.Leaders | src/eshop/shopping_cart_recommender.py:248-252 | the first product of each category: drawn from the input, covering all its categories, no category twice |
| CartRecommender.Remove | src/eshop/shopping_cart_recommender.py:255-256 | the products not already chosen |
| CartRecommender.Unique | src/eshop/shopping_cart_recommender.py:255-256 | the same products with repeats dropped |
| CartRecommender.LeadersPass | src/eshop/shopping_cart_recommender.py:248-252 | the first pass yields the first `limit` category leaders |
| CartRecommender.LedStep | src/eshop/shopping_cart_recommender.py:249-252 | one step of the first pass keeps its loop invariant |
| CartRecommender.LeadersStep | src/eshop/shopping_cart_recommender.py:249-252 | a product extends the leaders exactly when its category has not been seen |
| CartRecommender.FillPass | src/eshop/shopping_cart_recommender.py:254-257 | the second pass appends unchosen products in order until the limit |
| CartRecommender.FillAdvance | src/eshop/shopping_cart_recommender.py:255-257 | one step of the second pass keeps its loop invariant |
| CartRecommender.FillStep | src/eshop/shopping_cart_recommender.py:255-257 | the next fill candidate is appended exactly when not chosen before |
| CartRecommender.CategoriesCount | src/eshop/shopping_cart_recommender.py:248-252 | products with pairwise different categories have as many categories as products |
| CartRecommender.CategoriesSnoc | src/eshop/shopping_cart_recommender.py:248-252 | the last of such products adds a new category |
| CartRecommender.FilledDistinct | src/eshop/shopping_cart_recommender.py:254-257 | filling never repeats a product and adds only input products |
| CartRecommender.FilledLength | src/eshop/shopping_cart_recommender.py:254-257 | the filled list has min(limit, distinct inputs) products, all of them when the limit allows |
| CartRecommender.FirstPassDistinct | src/eshop/shopping_cart_recommender.py:248-252 | the first pass never repeats a product and adds only input products |
| CartRecommender.DiversifiedDistinct | src/eshop/shopping_cart_recommender.py:243-259 | the diversified list has no repeats and only input products |
| CartRecommender.DiversifiedLength | src/eshop/shopping_cart_recommender.py:243-259 | it has min(limit, distinct inputs) products, all of them when the limit allows |
| CartRecommender.DiversifiedCategories | src/eshop/shopping_cart_recommender.py:243-259 | with a limit of at least the number of categories, every input category is represented |
| CartRecommender.DiversifyRecommendations | src/eshop/shopping_cart_recommender.py:243-259 | the two passes compute the diversified list |
| Neighbors.Weight | src/eshop/ml_recommenders.py:293-301 | interaction weights are at least 1: purchase 5, and any unknown type 1 |
| Neighbors.RowScorePositive | src/eshop/ml_recommenders.py:300-301 | a grouped row (weight times a positive count) scores at least 1 |
| Neighbors.ItemScorePositive | src/eshop/ml_recommenders.py:300-302 | an item's summed score is non-negative, and positive exactly when the user interacted with it |
| Neighbors.Profile | src/eshop/ml_recommenders.py:292-304 | defines a user's item profile: each interacted item with the sum of weight times count over its grouped rows; its properties are the ensures of Neighbors.ProfilePositive and Neighbors.GroupedProfile |
| Neighbors.ProfilePositive | src/eshop/ml_recommenders.py:292-304 | every item of a user's profile has a positive score |
| Neighbors.ItemOrderMembers | src/eshop/ml_recommenders.py:300-304 | the profile's key order lists each interacted item exactly once |
| Neighbors.GroupedProfile | src/eshop/ml_recommenders.py:300-304 | the accumulated dictionary is the user's profile |
| Neighbors.GetUserItemInteractions | src/eshop/ml_recommenders.py:278-304 | the loop builds the profile (weighted counts summed per item) and its key order |
| Neighbors.Vector | src/eshop/ml_recommenders.py:353-355 | the scores of the listed items, 0 for an absent item |
| Neighbors.PartialDone | src/eshop/ml_recommenders.py:349-359 | after the loop the three accumulators are the dot product and the two squared norms |
| Neighbors.SumProducts | src/eshop/ml_recommenders.py:349-359 | the loop over the common items computes the dot product and both squared norms |
| Neighbors.CalculateUserSimilarity | src/eshop/ml_recommenders.py:343-365 | the result is the cosine similarity on the common items, 0 when there are none or a norm is 0 |
| Neighbors.CosineOf | src/eshop/ml_recommenders.py:361-365 | the final division with its zero guard is the cosine |
| Neighbors.Similarity | src/eshop/ml_recommenders.py:343-365 | defines the cosine similarity over the common items, 0 without common items or when a norm is 0; its properties are the ensures of Neighbors.SimilaritySymmetric, Neighbors.SimilarityBounds and Neighbors.SimilaritySelf |
| Neighbors.SimilaritySymmetric | src/eshop/ml_recommenders.py:343-365 | the similarity of two users does not depend on their order |
| Neighbors.CosineBounds | src/eshop/ml_recommenders.py:361-365 | a non-negative dot product bounded by Cauchy-Schwarz gives a cosine in [0, 1] |
| Neighbors.SimilarityBounds | src/eshop/ml_recommenders.py:343-365 | with non-negative profiles the similarity lies in [0, 1] |
| Neighbors.CosineSelf | src/eshop/ml_recommenders.py:361-365 | a vector with positive norm has cosine 1 with itself |
| Neighbors.SimilaritySelf | src/eshop/ml_recommenders.py:343-365 | a user is fully similar to themself whenever one common item scores non-zero |
| Neighbors.CommonRows | src/eshop/ml_recommenders.py:309-315 | the rows kept are those of other users on one of the user's items |
| Neighbors.Users | src/eshop/ml_recommenders.py:318-320 | the grouped users, without repeats |
| Neighbors.CommonOf | src/eshop/ml_recommenders.py:318-320 | a user's common items, without repeats |
| Neighbors.UsersMembers | src/eshop/ml_recommenders.py:318-320 | a user is grouped exactly when some row belongs to them |
| Neighbors.CommonOfMembers | src/eshop/ml_recommenders.py:318-320 | an item is in a user's common set exactly when a row pairs them |
| Neighbors.CommonOfUser | src/eshop/ml_recommenders.py:318-324 | a user with common items is one of the grouped users |
| Neighbors.GroupCommonItems | src/eshop/ml_recommenders.py:318-320 | the grouping loop yields the users in first-seen order and each one's common items |
| Neighbors.FindSimilarUsers | src/eshop/ml_recommenders.py:306-341 | the loop computes the similar-user list |
| Neighbors.NeighboursMembers | src/eshop/ml_recommenders.py:324-337 | a (user, similarity) pair is kept exactly when the user is grouped, has enough common items, reaches the threshold and carries their similarity |
| Neighbors.NeighbourFacts | src/eshop/ml_recommenders.py:309-337 | a kept neighbour is another user, shares an item, has at least `min_common_items` common items and reaches the threshold |
| Neighbors.SimilarUsersFacts | src/eshop/ml_recommenders.py:339-341 | at most 50 neighbours, by non-increasing similarity, each qualifying, and all qualifying ones when there are at most 50 |
| Neighbors.TallyAppend | src/eshop/ml_recommenders.py:378-385 | aggregating two event lists in turn is aggregating their concatenation |
| Neighbors.AddNeighbour | src/eshop/ml_recommenders.py:381-385 | one neighbour's loop adds exactly its weighted scores and counts for the items not excluded |
| Neighbors.AggregateScores | src/eshop/ml_recommenders.py:373-385 | the nested loops aggregate every neighbour's events; keys are distinct and are the scored items |
| Neighbors.NormalizeScores | src/eshop/ml_recommenders.py:387-390 | each score is divided by its neighbour count |
| Neighbors.ScoreCandidates | src/eshop/ml_recommenders.py:393-397 | the candidates with a score, in input order, with that score |
| Neighbors.GetNeighborRecommendations | src/eshop/ml_recommenders.py:367-400 | the method computes the neighbour recommendation function |
| Neighbors.TallyKeys | src/eshop/ml_recommenders.py:373-385 | aggregation keeps distinct keys, with scores and counts for exactly the items that received an event |
| Neighbors.TallyEntry | src/eshop/ml_recommenders.py:373-385 | an item's aggregated score is the sum of its event values and its count their number |
| Neighbors.NeighbourValues | src/eshop/ml_recommenders.py:381-385 | one neighbour contributes at most one value per item: its score times the similarity, when not excluded and a candidate |
| Neighbors.AllValues | src/eshop/ml_recommenders.py:378-385 | the values an item collects are its ratings from the neighbours that have it, or none when excluded |
| Neighbors.NeighbourScoreIsMean | src/eshop/ml_recommenders.py:373-390 | an item is scored exactly when it is a candidate the user has not touched and some neighbour rated it, and its score is the mean of those similarity-weighted ratings |
| Neighbors.CandidateScoresMembers | src/eshop/ml_recommenders.py:393-397 | a scored entry is a candidate with a score, carrying it |
| Neighbors.NeighborRecommendationsRanked | src/eshop/ml_recommenders.py:399-400 | at most `limit` products in non-increasing score order, all scored candidates when they fit |
| Neighbors.NeighborRecommendationsMembers | src/eshop/ml_recommenders.py:367-400 | every recommendation is a candidate the user has not touched that some neighbour rated |
| Neighbors.RatingsNonNegative | src/eshop/ml_recommenders.py:384 | with non-negative similarities every weighted rating is non-negative |
| Neighbors.NeighbourScoresNonNegative | src/eshop/ml_recommenders.py:373-390 | with non-negative similarities every aggregated score is non-negative |
| Neighbors.GetRecommendations | src/eshop/ml_recommenders.py:254-276 | the method computes the neighbour-based recommendations |
| Neighbors.Recommendations | src/eshop/ml_recommenders.py:254-276 | defines what `get_recommendations` returns; its properties are the ensures of Neighbors.RecommendationsFacts, and Neighbors.GetRecommendations computes it |
| Neighbors.RecommendationsFacts | src/eshop/ml_recommenders.py:254-276 | fewer than 3 interacted items or no similar user gives nothing; otherwise at most `limit` untouched candidates, each rated by a similar user |
| Neighbors.RatingsFrom | src/eshop/ml_recommenders.py:378-385 | an item with ratings was touched by some neighbour |
| Preference.Recent | src/eshop/ml_recommenders.py:66-72 | the interactions of the last 90 days, no more rows than given |
| Preference.Keys | src/eshop/ml_recommenders.py:100-104 | the category (or brand) of every interaction, in order |
| Preference.CountsDomain | src/eshop/ml_recommenders.py:100-104 | a category or brand is counted exactly when some interaction has it |
| Preference.CountsValue | src/eshop/ml_recommenders.py:100-104 | each count is the number of interactions with that key, between 1 and the number of rows |
| Preference.Tenure | src/eshop/ml_recommenders.py:127-128 | `max(days_since_first, 1)` is at least 1 |
| Preference.ExtractUserFeatures | src/eshop/ml_recommenders.py:81-130 | the loop computes the user profile function |
| Preference.PrefixStep | src/eshop/ml_recommenders.py:100-107 | one loop step adds the price, bumps the category and brand counts, counts a purchase and adds the age in days |
| Preference.ShareDomain | src/eshop/ml_recommenders.py:113-117 | a key has a share exactly when some interaction has it |
| Preference.ShareRange | src/eshop/ml_recommenders.py:113-117 | every share lies in (0, 1] |
| Preference.ShareValue | src/eshop/ml_recommenders.py:113-117 | a key's share is its number of interactions over all interactions, 0 when absent |
| Preference.CategoryPreferences | src/eshop/ml_recommenders.py:113-114 | category preferences: present exactly for seen categories, each in (0, 1] and equal to its frequency |
| Preference.BrandPreferences | src/eshop/ml_recommenders.py:116-117 | brand preferences: present exactly for seen brands, each in (0, 1] and equal to its frequency |
| Preference.PriceSumBounds | src/eshop/ml_recommenders.py:102 | the price sum lies between n times the lowest and n times the highest bound |
| Preference.PurchaseCountBound | src/eshop/ml_recommenders.py:106-107 | purchases never exceed the interactions |
| Preference.DaySumNonNegative | src/eshop/ml_recommenders.py:120-123 | interactions in the past give a non-negative total age |
| Preference.Features | src/eshop/ml_recommenders.py:109-128 | defines the user profile: mean price, per-category and per-brand shares, mean age in days and purchases per day of tenure, the defaults without rows; its properties are the ensures of Preference.CategoryPreferences, Preference.BrandPreferences and Preference.FeaturesBounds, and Preference.ExtractUserFeatures computes it |
| Preference.FeaturesBounds | src/eshop/ml_recommenders.py:109-128 | the mean price lies within the price bounds, the purchase frequency in [0, n], the recency is non-negative for past interactions |
| Preference.PriceTier | src/eshop/ml_recommenders.py:185-192 | a one-hot triple: low exactly below 50, high exactly from 150 |
| Preference.PriceTierMonotone | src/eshop/ml_recommenders.py:185-192 | a dearer product never gets a lower tier |
| Preference.RecencyScore | src/eshop/ml_recommenders.py:169 | `1/(1 + recency/30)` on numpy floats: positive infinity exactly at -30, otherwise the reciprocal of 1 + recency/30, in (0, 1] for a non-negative recency |
| Preference.RecencyScoreDecreasing | src/eshop/ml_recommenders.py:169 | recency 0 scores 1, and older interactions never score higher |
| Preference.CategorySimilarityShare | src/eshop/ml_recommenders.py:181-183 | the category match is the category's frequency, in [0, 1], and 0 exactly when the user never met the category |
| Preference.FeatureVector | src/eshop/ml_recommenders.py:141-179 | nine components: normalised price difference and ratio, category and brand match, recency, purchase frequency and the one-hot tier; the recency component is the recency score, and the vector holds an infinity exactly when the recency is -30 |
| Preference.FeatureVectorBounds | src/eshop/ml_recommenders.py:141-179 | for a non-negative profile and price every component is non-negative, the matches at most 1 and the recency score in (0, 1] |
| Preference.ProfileVectorBounds | src/eshop/ml_recommenders.py:81-179 | a profile drawn from past interactions with non-negative prices always gives such a vector |
| Preference.MaxPrice | src/eshop/ml_recommenders.py:102 | an upper bound of every interacted price |
| Preference.VectorsFinite | src/eshop/ml_recommenders.py:214-228 | one feature vector per product; all of them finite exactly when the list is empty or the mean recency is not -30 |
| Preference.ExamplesMembers | src/eshop/ml_recommenders.py:213-228 | positives are the products of interactions with a purchased product; negatives those of views of products never purchased |
| Preference.SelectedEmpty | src/eshop/ml_recommenders.py:230-235 | a class is empty exactly when no interaction qualifies for it |
| Preference.TrainUserModel | src/eshop/ml_recommenders.py:194-241 | defines the outcome of `_train_user_model` up to the fit: no model, a ValueError, or the labelled training set; its properties are the ensures of Preference.TrainUserModelGuards and Preference.TrainUserModelLabels |
| Preference.TrainUserModelGuards | src/eshop/ml_recommenders.py:194-241 | no model exactly when fewer than 10 recent interactions, fewer than 3 purchased products, or one class is empty; past the guards the fit raises ValueError exactly when the mean recency is -30 |
| Preference.TrainUserModelLabels | src/eshop/ml_recommenders.py:210-239 | the training set holds the positives labelled 1 and then the negatives labelled 0, each with its product's feature vector |
| Preference.GetRecommendations | src/eshop/ml_recommenders.py:24-64 | fewer than 5 interactions give no recommendations; never more than `limit` |
| Preference.RankCandidatesFacts | src/eshop/ml_recommenders.py:51-64 | the scored, sorted and sliced candidates: at most `limit`, each a candidate, in non-increasing decision score, all of them when they fit |
| Preference.SvmScore | src/eshop/ml_recommenders.py:53-60 | the decision function on the feature vector of the user and the product; `Preference.RankCandidatesFacts` and `Preference.GetRecommendationsRanked` state that the result is ordered by it |
| Preference.RankCandidates | src/eshop/ml_recommenders.py:51-64 | scores every candidate, sorts by descending score keeping ties in input order and keeps the first `limit`; `Preference.RankCandidatesFacts` states the bound, the membership and the order, and `Ranking.SortDescStable` the order of ties |
| Preference.GetRecommendationsErrors | src/eshop/ml_recommenders.py:36-64 | the only error is the fit's ValueError on an infinite recency: once a model is trained, scoring the candidates meets no infinity |
| Preference.GetRecommendationsRanked | src/eshop/ml_recommenders.py:42-64 | the result is drawn from the candidates, empty without a model, ordered by non-increasing decision score, and holds every candidate when they fit within the limit |
| Hybrid.DetermineUserSegment | src/eshop/hybrid_recommender.py:71-81 | new user exactly below 5 interactions, established exactly from 20 interactions and 2 orders, minimal data otherwise |
| Hybrid.SegmentMonotone | src/eshop/hybrid_recommender.py:71-81 | more interactions and orders never move a user to an earlier segment |
| Hybrid.GetPriceRange | src/eshop/hybrid_recommender.py:279-288 | budget below 50, mid below 150, premium below 300, luxury from 300 |
| Hybrid.PriceRangeMonotone | src/eshop/hybrid_recommender.py:279-288 | a dearer product never falls in a lower band |
| Hybrid.InStock | src/eshop/hybrid_recommender.py:60-62 | the candidate products, never more than the catalogue |
| Hybrid.InStockMembers | src/eshop/hybrid_recommender.py:60-62 | a product is a candidate exactly when it is in the catalogue with positive stock |
| Hybrid.DefaultWeights | src/eshop/hybrid_recommender.py:28-43 | the weight table has exactly the three segments |
| Hybrid.Values | src/eshop/hybrid_recommender.py:302 | the values of the new weights, one per entry |
| Hybrid.ToMapLookup | src/eshop/hybrid_recommender.py:303 | the dictionary holds exactly the given keys with their values |
| Hybrid.NormalisedShares | src/eshop/hybrid_recommender.py:302-303 | each normalised weight is the given weight over the total, and no other key appears |
| Hybrid.NormalisedTotal | src/eshop/hybrid_recommender.py:302-303 | the normalised weights sum to 1 |
| Hybrid.RescaledTotal | src/eshop/hybrid_recommender.py:302-303 | dividing every weight by a non-zero total gives weights summing to 1 |
| Hybrid.Rescaled | src/eshop/hybrid_recommender.py:303 | one rescaled entry per weight |
| Hybrid.RescaledSum | src/eshop/hybrid_recommender.py:302-303 | every prefix of the rescaled weights sums to the prefix of the weights over the total |
| Hybrid.HybridRecommender.constructor | src/eshop/hybrid_recommender.py:22-43 | the engine starts with the default weight table |
| Hybrid.HybridRecommender.UpdateWeights | src/eshop/hybrid_recommender.py:298-306 | an unknown segment returns False and changes nothing; a zero total of non-empty weights divides by zero; otherwise the segment gets the normalised weights and True; the segments never change |
| Hybrid.HybridRecommender.AlgorithmWeights | src/eshop/hybrid_recommender.py:290-296 | the user's segment and that segment's weights |
| Hybrid.Recommend | src/eshop/hybrid_recommender.py:45-69 | defines the router: new users get the best-seller/trending mix, minimal-data users the fallback list, established users the blend over the products in stock or that path's error (a missing weight, or the SVM recommender's own error); Hybrid.RecommendErrors states when each segment fails and Hybrid.HybridRecommender.GetRecommendations computes it |
| Hybrid.RecommendErrors | src/eshop/hybrid_recommender.py:64-123 | a new user's request fails exactly without a best-seller weight, a minimal-data user's never, an established user's exactly when a weight is missing or the SVM recommender raises, whose error then comes out unchanged; with the default weights only the SVM can fail |
| Hybrid.HybridRecommender.GetRecommendations | src/eshop/hybrid_recommender.py:45-69 | the method routes by segment to the new-user mix, the cold-start list or the blended recommendations, and returns their errors unchanged, the SVM recommender's included |
| Hybrid.NewUserRecommendations | src/eshop/hybrid_recommender.py:83-104 | fails exactly without a best-seller weight; otherwise min(limit, best sellers plus trending) products |
| Hybrid.NewUserSplitHalf | src/eshop/hybrid_recommender.py:88-95 | with the default weight 0.5 the best sellers get `limit // 2` slots and trending the rest |
| Hybrid.NewUserSplitBounds | src/eshop/hybrid_recommender.py:88 | a weight in [0, 1] gives a best-seller count between 0 and `limit` |
| Hybrid.NewUserSplit | src/eshop/hybrid_recommender.py:88 | `int(limit × weight)`, truncated toward zero; `Hybrid.NewUserSplitBounds` and `Hybrid.NewUserSplitHalf` state its range and its value for the default 0.5 |
| Hybrid.NewUserKeepsBoth | src/eshop/hybrid_recommender.py:100-104 | when both lists fit, every best seller and trending product is kept, with its multiplicity, whatever the shuffle |
| Hybrid.Components | src/eshop/hybrid_recommender.py:114-182 | fails exactly when an algorithm weight is missing or the SVM recommender, asked because its weight is positive, raises; a missing `linear_svm` weight raises KeyError first, the SVM's error comes next and unchanged, before any later weight is read, and otherwise the KeyError names the first missing weight |
| Hybrid.SelectFacts | src/eshop/hybrid_recommender.py:119-182 | each selected component is an active algorithm with its list, none twice, and every active algorithm is selected |
| Hybrid.ComponentsActive | src/eshop/hybrid_recommender.py:119-182 | the components are exactly the algorithms with positive weight (the cart one only with recent purchases), each with its `2*limit` list |
| Hybrid.RankScoreBounds | src/eshop/hybrid_recommender.py:132 | `1 - i/n` lies in (0, 1], is 1 for the first and strictly decreases with rank |
| Hybrid.RankScore | src/eshop/hybrid_recommender.py:132 | the score `1 - i/n` of rank i in a list of n; `Hybrid.RankScoreBounds` states its range and that it decreases with rank |
| Hybrid.GatherAllWf | src/eshop/hybrid_recommender.py:117-182 | the pooled dictionary stays well formed: its key order lists each key once |
| Hybrid.LastIndex | src/eshop/hybrid_recommender.py:124-133 | the last position of a product in a list, or none when absent |
| Hybrid.GatherScores | src/eshop/hybrid_recommender.py:124-133 | after one algorithm's loop a product is pooled exactly when it was or is listed, with that algorithm's score from its last position |
| Hybrid.GatherAllScores | src/eshop/hybrid_recommender.py:117-182 | a product is pooled exactly when some component lists it, and carries the per-algorithm scores |
| Hybrid.ScoresForKeys | src/eshop/hybrid_recommender.py:117-182 | a product has a score for an algorithm exactly when that algorithm lists it |
| Hybrid.ScoresForValues | src/eshop/hybrid_recommender.py:117-182 | that score is the rank score of its position in the algorithm's list |
| Hybrid.Established | src/eshop/hybrid_recommender.py:112-207 | defines the established-user result: KeyError for a missing weight or the SVM recommender's error, otherwise the pooled products by blended score, diversified; its properties are the ensures of Hybrid.EstablishedFacts, Hybrid.BlendScores and Hybrid.BlendTotal, and Hybrid.EstablishedRecommendations computes it |
| Hybrid.EstablishedRecommendations | src/eshop/hybrid_recommender.py:112-207 | the method computes the established result: the error of a missing weight or of the SVM recommender, otherwise the blended, sorted, diversified recommendations |
| Hybrid.Collect | src/eshop/hybrid_recommender.py:124-133 | one algorithm's loop pools its whole list |
| Hybrid.ScoreEntries | src/eshop/hybrid_recommender.py:185-192 | the loop scores every pooled product with its weighted total |
| Hybrid.WeightedTotal | src/eshop/hybrid_recommender.py:186-189 | the inner loop sums score times weight, 0 for an unknown algorithm |
| Hybrid.EnsureDiversity | src/eshop/hybrid_recommender.py:223-253 | the two passes compute the diversified list |
| Hybrid.NovelPass | src/eshop/hybrid_recommender.py:232-244 | the first pass keeps, up to `limit`, products bringing a new category or price band |
| Hybrid.ScanStep | src/eshop/hybrid_recommender.py:233-244 | one step of the first pass keeps its loop invariant |
| Hybrid.NovelMembers | src/eshop/hybrid_recommender.py:232-244 | the first pass keeps input products without repeats |
| Hybrid.NovelIntroduces | src/eshop/hybrid_recommender.py:241-244 | each kept product brought a new category or band when added |
| Hybrid.NovelSkips | src/eshop/hybrid_recommender.py:241 | each skipped product brings nothing new |
| Hybrid.NovelGrows | src/eshop/hybrid_recommender.py:241-244 | adding a product only grows the seen sets, after which it brings nothing new |
| Hybrid.DiversifiedFacts | src/eshop/hybrid_recommender.py:223-253 | short lists are returned unchanged; longer ones give min(limit, distinct products) distinct input products starting with the first-pass picks |
| Hybrid.DiversifiedLength | src/eshop/hybrid_recommender.py:223-253 | distinct inputs give exactly min(limit, n) products |
| Hybrid.BlendScores | src/eshop/hybrid_recommender.py:117-182 | over the selected components, a product is pooled exactly when listed, and each algorithm's score is its rank score |
| Hybrid.BlendTotal | src/eshop/hybrid_recommender.py:184-189 | a pooled product's total is the weighted sum of its components' rank scores |
| Hybrid.TotalSelect | src/eshop/hybrid_recommender.py:184-189 | summing over the algorithm order equals summing over the components |
| Hybrid.RankedItems | src/eshop/hybrid_recommender.py:185-199 | the scored list holds every pooled product once, each with its weighted total |
| Hybrid.SortedItems | src/eshop/hybrid_recommender.py:195-199 | sorting keeps exactly the same products |
| Hybrid.EstablishedFacts | src/eshop/hybrid_recommender.py:112-207 | when every weight is present and the SVM recommender does not raise, the result is distinct pooled products, min(limit, pool size) of them, in non-increasing blended score when the pool fits |
| Ranking.Items | src/eshop/shopping_cart_recommender.py:80 | the items of the (score, item) pairs, in order |
| Ranking.Insert | src/eshop/shopping_cart_recommender.py:75 | inserting a pair adds exactly that pair |
| Ranking.InsertNonIncreasing | src/eshop/shopping_cart_recommender.py:75 | inserting into a descending list keeps it descending |
| Ranking.SortDesc | src/eshop/shopping_cart_recommender.py:75 | `sort(key=score, reverse=True)`: non-increasing scores and a permutation of the input |
| Ranking.SortDescConstantKey | src/eshop/shopping_cart_recommender.py:146 | the sort is stable: pairs that all share one score keep their input order |
| Ranking.WithScore | src/eshop/ml_recommenders.py:63 | the pairs with one given score, in their order; `Ranking.WithScoreMembers` states that it keeps exactly those pairs |
| Ranking.WithScoreMembers | src/eshop/ml_recommenders.py:63 | every kept pair is a pair of the input with that score, and every such pair is kept |
| Ranking.InsertWithScore | src/eshop/ml_recommenders.py:63 | inserting a pair puts it first among the pairs of its own score and leaves the pairs of every other score as they were |
| Ranking.SortDescStable | src/eshop/ml_recommenders.py:63 | the descending sort is stable: for every score, the pairs with that score come out in exactly their input order |
| Ranking.SortDescElements | src/eshop/ml_recommenders.py:340 | sorting keeps exactly the same pairs |
| Ranking.TakeSorted | src/eshop/ml_recommenders.py:340-341 | the first `n` after sorting: at most `n`, descending, all from the input, and everything when it fits |
| Ranking.TopItems | src/eshop/ml_recommenders.py:399-400 | `[item for _, item in sorted[:limit]]` has at most `limit` items and no more than the input |
| Ranking.TopItemsMembers | src/eshop/ml_recommenders.py:399-400 | every top item is an input item, and all of them when they fit |
| Ranking.TopItemsRanked | src/eshop/ml_recommenders.py:63-64 | when each pair's score is a function of its item, the top items are in non-increasing order of that function |
| Ranking.SortPair | src/eshop/shopping_cart_recommender.py:146-148 | a higher-scoring second pair is sorted first |
| Ranking.ItemsMultiset | src/eshop/shopping_cart_recommender.py:75-80 | a permutation of pairs gives a permutation of items |
| Vectors.Times | src/eshop/ml_recommenders.py:357 | the element-wise products |
| Vectors.CauchySchwarz | src/eshop/ml_recommenders.py:349-365 | the squared dot product is at most the product of the squared norms, which bounds the cosine similarity by 1 |
| Vectors.DotNonNegative | src/eshop/ml_recommenders.py:357 | non-negative vectors have a non-negative dot product |
| Vectors.DotSelf | src/eshop/ml_recommenders.py:358-359 | a squared norm is non-negative, and positive when one component is non-zero |
| Analytics.WithoutAppend | src/eshop/analytics.py:48 | deleting one key's rows from a concatenation deletes them from each part |
| Analytics.WithoutKeyed | src/eshop/analytics.py:48 | after deleting a key's rows none is left, other keys keep their rows, and exactly the other rows remain |
| Analytics.Publish | src/eshop/analytics.py:47-99 | defines the table after a sequence of delete-then-insert steps; its properties are the ensures of Analytics.PublishKeyed, Analytics.PublishSplit, Analytics.PublishNext and Analytics.PublishIdempotent |
| Analytics.PublishKeyed | src/eshop/analytics.py:47-99 | after the delete-and-insert steps a key holds the rows of its last step, or its old rows when no step names it |
| Analytics.PublishSplit | src/eshop/analytics.py:47-99 | publishing equals stripping every published key from the table and appending the new rows |
| Analytics.StripMember | src/eshop/analytics.py:48 | a row survives stripping exactly when it was stored under a key no step publishes |
| Analytics.StripAppend | src/eshop/analytics.py:48 | stripping distributes over concatenation |
| Analytics.GeneratedKey | src/eshop/analytics.py:51-61 | every inserted row carries a published key |
| Analytics.PublishIdempotent | src/eshop/analytics.py:47-101 | running the same delete-and-insert steps twice leaves the table as running them once |
| Analytics.StripTwice | src/eshop/analytics.py:48 | stripping the same keys twice is stripping once |
| Analytics.StripGenerated | src/eshop/analytics.py:47-99 | stripping the published keys removes every inserted row |
| Analytics.PublishNext | src/eshop/analytics.py:85-99 | each step deletes its key's rows and then appends its own |
| Analytics.WindowsNested | src/eshop/analytics.py:21-30 | the 90-day window starts before the 30-day one, which starts before the 7-day one; any other window starts at 1 January 2000 |
| Analytics.WindowStart | src/eshop/analytics.py:21-30 | the earliest time a window counts: 7, 30 or 90 days before `now`, or 1 January 2000 for any other name; `Analytics.WindowsNested` states their order |
| Analytics.Since | src/eshop/analytics.py:37-40 | the order lines of orders created at or after the window start |
| Analytics.InCategory | src/eshop/analytics.py:72-78 | the order lines whose product is in the catalogue with the given category |
| Analytics.Sales | src/eshop/analytics.py:33-42 | defines the sales query grouped by product: each sold product once, with its units and revenue; its properties are the ensures of Analytics.SalesGroups |
| Analytics.SalesGroups | src/eshop/analytics.py:33-42 | one group per sold product, none twice, each with its total quantity and revenue |
| Analytics.TopSalesFacts | src/eshop/analytics.py:43-45 | the first `n` groups by quantity: at most `n`, from the groups, by non-increasing quantity, all of them when they fit |
| Analytics.InsertBestSellers | src/eshop/analytics.py:50-61 | the insert loop appends the ranked rows |
| Analytics.CalculateBestSellers | src/eshop/analytics.py:12-101 | the rollup publishes the overall list and then each distinct category's top 20 |
| Analytics.BestSellerStepAt | src/eshop/analytics.py:47-99 | the first step is the overall list for the window, and step `j+1` is category `j`'s list |
| Analytics.BestSellersCategory | src/eshop/analytics.py:63-99 | after the rollup each listed category holds its own best sellers |
| Analytics.BestSellersOverall | src/eshop/analytics.py:47-61 | when no listed category is null, the overall key holds the overall best sellers |
| Analytics.BestSellersUntouched | src/eshop/analytics.py:47-99 | rows of other windows and of unlisted categories are left as they were |
| Analytics.BestSellersIdempotent | src/eshop/analytics.py:12-101 | running the rollup twice on the same data is running it once |
| Analytics.BestSellerRanks | src/eshop/analytics.py:51-61 | ranks run 1, 2, … in non-increasing quantity, at most `n` rows, each one of the sales groups |
| Analytics.AddTo | src/eshop/analytics.py:130-156 | adding to one counter leaves the other counters unchanged |
| Analytics.AccumulateRows | src/eshop/analytics.py:130-136 | the loop over grouped rows computes the accumulated counters |
| Analytics.CounterOf | src/eshop/analytics.py:130-156 | the counter a grouped row adds to: views and clicks for both tables, purchases only for user rows, cart additions only for guest rows, none for any other type; `Analytics.AccumulateRows` ensures the loop computes the accumulation that adds each row's count to that counter |
| Analytics.AggregateInteractions | src/eshop/analytics.py:115-156 | the two loops aggregate the signed-in and the guest rows |
| Analytics.AccumulateWf | src/eshop/analytics.py:116-156 | the aggregate keeps each product once in its key order |
| Analytics.CountTally | src/eshop/analytics.py:130-156 | one row adds its count to its product's view, click, cart (guests only) or purchase (signed-in only) counter |
| Analytics.AccumulateCounts | src/eshop/analytics.py:130-156 | each counter is the sum of that product's rows of the matching type |
| Analytics.AccumulateKeys | src/eshop/analytics.py:130-156 | a product gets counters exactly when it has a row of a counted type |
| Analytics.AggregateTally | src/eshop/analytics.py:115-156 | views and clicks add both sources, carts come only from guests and purchases only from signed-in users |
| Analytics.AggregateKeys | src/eshop/analytics.py:115-156 | a product is aggregated exactly when it has a signed-in view, click or purchase or a guest view, click or cart |
| Analytics.RecencyBoostBounds | src/eshop/analytics.py:262-265 | no recent interaction gives boost 1, any gives more than 1, and more gives a larger boost |
| Analytics.RecencyBoost | src/eshop/analytics.py:262-265 | 1 + 0.1 × ln(1 + n) for n recent interactions and exactly 1 for none; `Analytics.RecencyBoostBounds` states that it is 1 only without interactions and grows with them |
| Analytics.TrendScoreWeighted | src/eshop/analytics.py:162-178 | the score is the weighted per-hour rate (views 1, clicks 2, carts 5, purchases 10) times the boost |
| Analytics.Velocity | src/eshop/analytics.py:162-165 | interactions per hour of the window; `Analytics.TrendScoreWeighted` states the weighted sum of the four velocities |
| Analytics.TrendScore | src/eshop/analytics.py:162-178 | the velocities weighted 1, 2, 5 and 10, times the recency boost; `Analytics.TrendScoreWeighted` states it as the weighted count over the window's hours |
| Analytics.TrendScoreMonotone | src/eshop/analytics.py:162-178 | a larger weighted count never gives a lower score |
| Analytics.ScoreTrends | src/eshop/analytics.py:159-186 | the loop scores every aggregated product |
| Analytics.Trends | src/eshop/analytics.py:159-186 | defines the trend list of the aggregated interactions, or ZeroDivisionError for a zero-hour window; its properties are the ensures of Analytics.TrendsOutcome, Analytics.TrendsScores and Analytics.TrendsAt |
| Analytics.TrendsOutcome | src/eshop/analytics.py:159-186 | a zero-hour window divides by zero exactly when some product was aggregated; otherwise one trend per product, in order |
| Analytics.TrendsScores | src/eshop/analytics.py:162-178 | each trend's score is its boosted weighted rate |
| Analytics.TrendsAt | src/eshop/analytics.py:159-186 | each trend holds its product's velocities and score |
| Analytics.SortTrendsPermutation | src/eshop/analytics.py:189 | sorting keeps exactly the same trends |
| Analytics.SortTrendsOrdered | src/eshop/analytics.py:189 | sorted trends have non-increasing scores |
| Analytics.InProductsMembers | src/eshop/analytics.py:212-215 | a trend is kept exactly when its product is in the category |
| Analytics.InProductsOrdered | src/eshop/analytics.py:215 | filtering keeps the descending order |
| Analytics.InsertTrending | src/eshop/analytics.py:194-206 | the insert loop appends the ranked rows |
| Analytics.TrendingRollup | src/eshop/analytics.py:103-234 | defines the stored trending table after `calculate_trending_products`; its properties are the ensures of Analytics.TrendingCategory, Analytics.TrendingOverall, Analytics.TrendingUntouched, Analytics.TrendingIdempotent and Analytics.TrendingRanks |
| Analytics.TrendingStepAt | src/eshop/analytics.py:191-232 | the first step is the overall top `n`, step `j+1` category `j`'s top 20 |
| Analytics.CalculateTrendingProducts | src/eshop/analytics.py:103-234 | the rollup aggregates, scores, sorts and publishes the trending rows |
| Analytics.TrendingCategory | src/eshop/analytics.py:208-232 | after the rollup each listed category holds its top 20 |
| Analytics.TrendingOverall | src/eshop/analytics.py:191-206 | when no listed category is null, the overall key holds the top `n` trends |
| Analytics.TrendingUntouched | src/eshop/analytics.py:191-232 | unlisted categories keep their rows |
| Analytics.TrendingIdempotent | src/eshop/analytics.py:103-234 | running the trending rollup twice on the same data is running it once |
| Analytics.TrendingRanks | src/eshop/analytics.py:194-206 | ranks run 1, 2, … by non-increasing score, at most `n` rows, each one of the trends |
| Analytics.CategoryTrending | src/eshop/analytics.py:215-221 | a category's list has at most 20 rows, ranks 1, 2, … and non-increasing scores |
| Analytics.CategoryTrendingMembers | src/eshop/analytics.py:212-221 | each row of a category's list is a trend of a catalogue product in that category |
| Analytics.CategoriesListed | src/eshop/analytics.py:64 | every catalogue category, including a missing one, is listed once |
| Analytics.CategoryBestSellersMembers | src/eshop/analytics.py:66-83 | every best seller of a category is a product of that category |
| Analytics.BestSellersNullCategory | src/eshop/analytics.py:63-99 | as written, with a product without category the overall best-seller key ends up holding only products without category |
| Analytics.NamedCategories | src/eshop/analytics.py:64 | the named categories, each once |
| Analytics.CorrectedBestSellersKeepOverall | src/eshop/analytics.py:47-99 | corrected: with only named categories listed, the overall key holds the overall best sellers and each category its own |
| Analytics.TrendingNullCategory | src/eshop/analytics.py:208-232 | as written, with a product without category the overall trending key ends up holding only products without category |
| Analytics.CorrectedTrendingKeepsOverall | src/eshop/analytics.py:191-232 | corrected: the overall key holds the top `n` trends and each named category its top 20 |
| ABTesting.CumulativeMonotone | src/eshop/ab_testing.py:136-141 | with non-negative percentages the running total never decreases along the variants |
| ABTesting.Bucket | src/eshop/ab_testing.py:131-135 | the hash of "user-experiment" modulo 100 is a bucket below 100 |
| ABTesting.FirstCovering | src/eshop/ab_testing.py:136-141 | the first variant whose running percentage exceeds the bucket, or none when no variant does |
| ABTesting.FallbackUnreachable | src/eshop/ab_testing.py:87-90 | when the percentages pass the creation check every bucket finds a covering variant, so the fallback at line 144 is never taken |
| ABTesting.TrafficValid | src/eshop/ab_testing.py:87-90 | the percentages sum to 100 within 0.01; `ABTesting.FallbackUnreachable` states that it makes every bucket fall in some variant |
| ABTesting.ZeroTrafficNeverChosen | src/eshop/ab_testing.py:136-141 | a variant with no traffic is never chosen |
| ABTesting.ChosenRange | src/eshop/ab_testing.py:136-141 | with non-negative percentages variant `i` is chosen exactly when the bucket lies in its interval [total before it, total through it) |
| ABTesting.FirstNamed | src/eshop/ab_testing.py:153-155 | the first variant with the given name, or none when no variant has it |
| ABTesting.WeightsOfAssignedVariant | src/eshop/ab_testing.py:146-157 | a user assigned a variant with a non-empty name always gets weights, and with distinct names they are that variant's weights |
| ABTesting.VariantWeights | src/eshop/ab_testing.py:146-157 | None without a variant or with an empty name, otherwise the weights of the first variant of that name; `ABTesting.WeightsOfAssignedVariant` states that an assigned named variant always gets them |
| ABTesting.FirstCounterEventFails | src/eshop/ab_testing.py:173-188 | as written: the first click, purchase or shown-recommendation event of a user in a variant raises TypeError, where starting from the defaults would count it once |
| ABTesting.Track | src/eshop/ab_testing.py:166-195 | defines the result table after one event, as written: TypeError for a counter event on a new row; its properties are the ensures of ABTesting.TrackAgrees and ABTesting.FirstCounterEventFails |
| ABTesting.TrackAgrees | src/eshop/ab_testing.py:166-195 | on an existing row or for a custom metric the code agrees with the version that starts new rows from the defaults |
| ABTesting.TrackFromZeroCounts | src/eshop/ab_testing.py:173-188 | corrected: when new rows start from the column defaults, a user's row after any sequence of events counts every click and purchase, the first one included, and no other row changes |
| ABTesting.ApplyAllCounters | src/eshop/ab_testing.py:182-188 | after a series of events clicks and purchases grow by their counts, revenue by the purchase values and shown recommendations by the truncated values |
| ABTesting.ApplyAllCustom | src/eshop/ab_testing.py:189-193 | a custom metric grows by the sum of its event values |
| ABTesting.Lift | src/eshop/ab_testing.py:249-251 | defines the lift in percent of the variant's conversion rate over the control's, with the control rate floored at 0.001; its properties are the ensures of ABTesting.LiftSign and ABTesting.LiftRelative |
| ABTesting.LiftSign | src/eshop/ab_testing.py:249-251 | the lift is positive, zero or negative exactly when the variant's conversion rate is above, equal to or below the control's |
| ABTesting.LiftRelative | src/eshop/ab_testing.py:249-251 | when the control rate is at least 0.001 the lift is the relative change of the rates, in percent |
| ABTesting.UpdateRow | src/eshop/ab_testing.py:181-193 | the update of one row for one event |
| ABTesting.Apply | src/eshop/ab_testing.py:181-193 | a shown event adds its value truncated to the shown count, a click adds one click, a purchase adds one purchase and its value as revenue, and any other event adds its value to that custom metric |
| ABTesting.TrackedEvent | src/eshop/ab_testing.py:159-195 | the variant lookup's error, the table unchanged for no variant, or the table with the user's row updated for the event; `ABTesting.ABTestingFramework.TrackEvent` ensures the method commits it |
| ABTesting.FindWeights | src/eshop/ab_testing.py:153-157 | the loop returns the weights of the first variant with the name, or None |
| ABTesting.ABTestingFramework.constructor | src/eshop/ab_testing.py:72-80 | the active set is exactly the running experiments |
| ABTesting.ABTestingFramework.CreateExperiment | src/eshop/ab_testing.py:82-110 | fails with ValueError and changes nothing exactly when the percentages are more than 0.01 from 100; otherwise stores a new draft experiment ending `duration_days` later, in which every bucket reaches a variant |
| ABTesting.ABTestingFramework.StartExperiment | src/eshop/ab_testing.py:112-122 | an unknown id raises ValueError and changes nothing; otherwise the experiment runs from `now` and becomes active |
| ABTesting.ScanVariants | src/eshop/ab_testing.py:136-144 | the running-total scan returns the first variant whose cumulative percentage exceeds the bucket, else the first variant, and raises IndexError when there are none |
| ABTesting.Assignment | src/eshop/ab_testing.py:136-144 | the first variant whose running total exceeds the bucket, else the first variant, else IndexError; `ABTesting.ScanVariants` ensures the loop returns it |
| ABTesting.UserVariant | src/eshop/ab_testing.py:124-144 | defines what `get_user_variant` returns: None for an inactive experiment, otherwise the variant whose cumulative share covers the bucket, else the first variant, and IndexError without variants; ABTesting.ABTestingFramework.GetUserVariant computes it |
| ABTesting.ABTestingFramework.GetUserVariant | src/eshop/ab_testing.py:124-144 | None for an inactive experiment; for a valid experiment the variant the bucket falls in |
| ABTesting.ABTestingFramework.GetVariantWeights | src/eshop/ab_testing.py:146-157 | None without a variant name, otherwise the weights of the first variant of that name |
| ABTesting.ABTestingFramework.TrackEvent | src/eshop/ab_testing.py:159-195 | the result row of the user's variant is updated for the event; on an error the table is left unchanged; experiments are never touched |
| ABTesting.ABTestingFramework.AutoStopExperiment | src/eshop/ab_testing.py:305-329 | None for an unknown experiment; otherwise true exactly when some variant is significant with more than 10% lift and more than 100 users, in which case the experiment is completed and no longer active |
| Metrics.HitsBound | tests/mock_data_generator.py:236-244 | the hits are at most the list length, all of it exactly when every product is relevant and none exactly when none is |
| Metrics.HitsPrefix | tests/mock_data_generator.py:246-255 | a longer prefix has at least as many hits |
| Metrics.HitsDistinct | tests/mock_data_generator.py:246-255 | without repeated ids each hit is a different relevant id, so hits never exceed the relevant items |
| Metrics.PrecisionAtK | tests/mock_data_generator.py:236-244 | defines precision@k: hits among the first k over min(k, length of that prefix), 0 without recommendations, ZeroDivisionError for k = 0; its properties are the ensures of Metrics.PrecisionBounds |
| Metrics.PrecisionBounds | tests/mock_data_generator.py:236-244 | precision is 0 without recommendations, fails only for k = 0, lies in [0, 1], and is 1 (0) exactly when all (none) of the first k are relevant |
| Metrics.RecallAtK | tests/mock_data_generator.py:246-255 | defines recall@k: hits among the first k over the relevant items, 0 without relevant items; its properties are the ensures of Metrics.RecallBounds and Metrics.RecallMonotone |
| Metrics.RecallBounds | tests/mock_data_generator.py:246-255 | recall is 0 without relevant items, never negative, and at most 1 for distinct recommendations |
| Metrics.RecallMonotone | tests/test_metrics.py:75 | recall never decreases as k grows |
| Metrics.CategoryList | tests/mock_data_generator.py:257-266 | the category of each recommendation, in order |
| Metrics.Diversity | tests/mock_data_generator.py:257-266 | defines diversity: distinct categories (None counted as one) over the number of recommendations, 0 for none; its properties are the ensures of Metrics.DiversityBounds |
| Metrics.DiversityBounds | tests/mock_data_generator.py:257-266 | diversity is 0 exactly for no recommendations, lies in [0, 1], and is 1 exactly when no two share a category |
| Metrics.Coverage | tests/mock_data_generator.py:268-277 | defines coverage: distinct recommended ids over distinct catalogue ids, 0 for an empty catalogue; its properties are the ensures of Metrics.CoverageBounds |
| Metrics.CoverageBounds | tests/mock_data_generator.py:268-277 | coverage is 0 for an empty catalogue and never negative; for recommendations from the catalogue it is at most 1, and 1 exactly when every catalogue id is recommended |

## Left out

- Database sessions and queries are not modelled. Every query result is an input: a sequence of rows, or a map from ids to counts. The model assumes that each delete sees the rows added earlier in the same session.
- Ties in SQL `ORDER BY` are taken in first-appearance order. The database does not promise that order.
- The union query in `_calculate_recency_boost` (analytics.py:237-265) counts distinct ids across two tables. The model takes the resulting count as an input.
- The Redis tier of the cache is not modelled. Neither are pickling, `get_cache`, the `cached_recommendation` decorator, `CacheManager` and cache warm-up. They are I/O around the in-memory tier.
- scikit-learn's `LinearSVC` and `StandardScaler` are not modelled. The trained decision function is a parameter of `Preference`, so training quality is out of scope. Only the training set's guards and labels are modelled.
- The chi-square test and its p-value (scipy) are not modelled. Significance is an input to `ABTesting.ABTestingFramework.AutoStopExperiment`. The per-variant aggregation in `calculate_significance` is modelled only as far as the lift formula. The report text of `get_experiment_report` is left out.
- `np.random.shuffle` in the new-user path is not modelled. Hybrid.NewUserRecommendations keeps the concatenation order, so its result is one of the orders the shuffle can produce.
- MD5 (`hashlib`) is a parameter, in both `CacheKeys` and `ABTesting`.
- The natural logarithm and square root are parameters that satisfy `IsLog1p` and `IsSqrt`.
- Floating-point numbers are modelled as reals, so rounding is not modelled.
- The clock is a parameter (`now`, in seconds).
- The caching wrappers `get_best_sellers` and `get_trending_products`, `update_analytics` and all logging and printing are I/O and are left out.
- Negative `limit` and `k` arguments are not modelled: they are `nat`.
- ABTesting.ABTestingFramework.CreateExperiment: the ValueError message that reports the traffic total is not modelled; the error itself is.
- ABTesting.ABTestingFramework.CreateExperiment: the experiment id comes from the database's autoincrement. The model uses one more than the largest id in use.
- ABTesting.ABTestingFramework.TrackEvent: a failed event leaves the result table unchanged. This is the rollback of the request's session.
- ABTesting.ABTestingFramework.TrackEvent: an in-place change to a non-empty `custom_metrics` dictionary may not be flushed by the ORM, because the JSON column is not mutable-tracked. The model persists every change.
- Metrics: the relevant items are a set, so duplicate ids in a list of relevant items are not modelled.
- The minimal-data fallback list of the hybrid recommender is an input. `recommender.py` is not part of this model.
- CategoryTree.PathOf, CategoryTree.GetPath, CategoryTree.GetDepth, CategoryTree.GetBreadcrumb, CategoryTree.ValidateDepth and CategoryTree.GetAllProducts require a parent table without cycles (the ghost `rank`), because the walks at models.py:24-31, 38-45 and 60-67 never return on a cycle. `validate_depth` does not prevent one; see Findings.

## Findings

| source | as written | input that shows it | evidently intended | confidence | as-written member | corrected member |
|---|---|---|---|---|---|---|
| src/eshop/shopping_cart_recommender.py:144-146 | the recovery candidates are sorted by a `score` computed for the last product of the earlier loop, so every key is the same and the stable sort keeps input order | two recovering candidates where the second has the higher recovery score | the first `limit` candidates by descending recovery score | not executed | CartRecommender.RecoveryIgnoresScores | CartRecommender.GetAbandonedCartRecoveryRanked |
| src/eshop/shopping_cart_recommender.py:134 | the comment says "Last 5 purchases", but `_get_user_purchase_history` lists purchases newest first, so `purchase_history[-5:]` takes the five oldest | six purchases of distinct products; the newest one is left out of the recovery score | the five most recent purchases, `purchase_history[:5]` | not executed | CartRecommender.LastFiveMissesNewest | CartRecommender.RecentFiveNewest |
| src/eshop/analytics.py:63-99 | a product without category adds `None` to the category list, and its delete and insert run on the key of the overall best sellers | products A in "books" and B without category; orders A × 5 and B × 1; the stored overall list becomes [B] | only named categories get their own rows; the overall rows stay | not executed | Analytics.BestSellersNullCategory | Analytics.CorrectedBestSellersKeepOverall |
| src/eshop/analytics.py:208-232 | the same for trending: the null category deletes and overwrites the overall trending rows | one trending product without category | only named categories get their own rows; the overall rows stay | not executed | Analytics.TrendingNullCategory | Analytics.CorrectedTrendingKeepsOverall |
| src/eshop/ab_testing.py:173-188 | a new `ABTestResult` has no values in its counter columns before insert, so `+=` on `None` raises TypeError | the first click of a user in a running experiment | new rows start from the column defaults and count the first event | not executed | ABTesting.FirstCounterEventFails | ABTesting.TrackFromZeroCounts |
| src/eshop/models.py:47-53 | `validate_depth` checks only the new parent's depth, never whether that parent lies below the category, so a re-parented category can become its own ancestor; every later walk up or down the tree then loops forever | category 1 (main) with child 2, then `parent_id` of 1 set to 2 with `max_depth` 3 | refuse a parent that is the category itself or one of its descendants | not executed | CategoryTree.ValidateDepthAdmitsCycle | CategoryTree.ValidateParent |
