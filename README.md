# Foodgram backend core, modelled in Dafny

Foodgram is a recipe-sharing web service. Users publish recipes built from
reference tags and ingredients. They follow other authors, mark recipes as
favourites and put them in a shopping cart. This project models the business
logic underneath the Django wiring, as an in-memory relational store and the
operations that read and change it:

- **Tables and constraints** (`recipes_models.dfy`, `users_models.dfy`,
  `constants.dfy`). One `datatype` per row kind and a `Db` value holding every
  table as a map from primary key to row. The declared unique constraints,
  check constraints, foreign keys and validator bounds form the predicate
  `Recipes.Valid`. Each `on_delete=CASCADE` becomes a delete function proved
  to keep `Valid`. The default recipe ordering (newest first, then by name)
  becomes `Listing`. The four numeric bounds are read from the Django
  settings by the model validators and from `core.constants` by the
  serializer fields. Neither file is part of this model, so the bounds are
  uninterpreted constants of which only `MIN <= MAX` is known.
- **Write side** (`serializers.dfy`, `store.dfy`):
  - The list checks of `WriteRecipeSerializer`, as methods with the source's
    scan loop: `empty_field`, `validate_ingredients` and `validate_tags`.
  - The subscription checks.
  - `create` and `update`, as methods of the class `Persistence.Store`. Its
    fields are the tables, updated in place, together with the two key
    counters the database hands out. Each method is proved to keep the store
    invariant. Each is also proved to leave exactly the stated tables behind.
- **Read side** (`custom_serializers.dfy`, `filters.dfy`, and the getters in
  `serializers.dfy`):
  - The caller-relative flags `is_subscribed`, `is_favorited` and
    `is_in_shopping_cart`.
  - The recipe count and the limited recipe list of an author.
  - The ingredient-with-amount join.
  - The query filters. A queryset is the sequence of keys it yields, and
    filter and exclude keep its order.

The requesting user is an explicit parameter, `Caller`, with three cases:
no user object, the anonymous user, and a registered user. The creation
timestamp is an explicit parameter too.

Three behaviours of the code shape the model:

- Create and update run outside any transaction. A refused bulk insert
  leaves the recipe row and its tags written and the ingredient rows absent
  (`Persistence.Store.Create`, `Persistence.Store.Update`).
- An empty ingredient or tag list is rejected by `empty_field` first, under
  the key `"{field}"` (`Serializers.ValidateIngredients`,
  `Serializers.ValidateTags`).
- The `RecipeFilter` methods have no anonymous bypass, unlike
  `get_queryset_filter` (`Filters.IsFavoritedFilter`,
  `Filters.IsInShoppingCartFilter`).

## Model

| member | source | states |
|---|---|---|
| Users.StrIdentifiesUser | backend/users/models.py:16-19 | in a valid user table two users print the same (`__str__` is the username, lines 64-65) exactly when they are the same row |
| Users.RemoveUserSubscriptions | backend/users/models.py:70-81 | the cascade of deleting a user leaves no subscription naming them on either side and keeps every other subscription unchanged |
| Recipes.RelatedRecipes | backend/recipes/models.py:153-172 | a recipe is in the result exactly when the user has a row for it in the favourites or cart table |
| Recipes.WithoutRecipes | backend/recipes/models.py:117-121 | dropping a set of recipes drops exactly the amount, favourite and cart rows pointing at them, keeps every other row unchanged, and keeps the store valid |
| Recipes.DeleteRecipe | backend/recipes/models.py:117-121 | deleting a recipe removes its amount rows, favourites and cart rows, changes nothing else, and keeps the store valid |
| Recipes.DeleteUser | backend/recipes/models.py:66-71 | deleting a user removes them, their recipes with those recipes' rows, every subscription where they are subscriber or author, and their favourites and cart rows; other users, recipes, subscriptions, favourites, cart rows and amount rows stay unchanged; the store stays valid |
| Recipes.WithoutUser | backend/recipes/models.py:154-158 | the user foreign-key cascade on a favourites or cart table keeps exactly the rows of other users |
| Recipes.DeleteUserKeepsValid | backend/users/models.py:70-81 | the user cascade, applied on top of the recipe cascade, keeps every constraint |
| Recipes.UsersShrink | backend/users/models.py:11-23 | removing a user keeps email, username and (username, email) unique |
| Recipes.SubscriptionsShrink | backend/users/models.py:87-100 | removing a user's subscriptions keeps `unique_subscription` and `no_self_subscription` |
| Recipes.UserRowsShrink | backend/recipes/models.py:165-172 | removing a user's favourite or cart rows keeps the (user, recipe) uniqueness and both foreign keys |
| Recipes.DeleteIngredient | backend/recipes/models.py:122-126 | deleting an ingredient removes it and exactly the amount rows that use it, keeps every other table equal, and keeps the store valid |
| Recipes.DeleteTag | backend/recipes/models.py:88-92 | deleting a tag removes it from the tag table and from every recipe's tag set, leaves every recipe otherwise unchanged and every other table equal, and keeps the store valid |
| Recipes.NameLeTotal | backend/recipes/models.py:110 | the name order compares any two names |
| Recipes.NameLeTransitive | backend/recipes/models.py:110 | the name order is transitive |
| Recipes.PrecedesTotal | backend/recipes/models.py:110 | the ordering ('-pub_date', 'name') compares any two recipes |
| Recipes.PrecedesTransitive | backend/recipes/models.py:110 | the ordering ('-pub_date', 'name') is transitive |
| Recipes.FirstExists | backend/recipes/models.py:110 | every non-empty set of recipes has a first element under the default ordering |
| Recipes.Listing | backend/recipes/models.py:110 | a listing of a set of recipes holds each of them exactly once, newest first and equal dates by name |
| CustomSerializers.RecipesCount | backend/core/custom_serializers.py:4-5 | the count is at most the number of recipes and is zero exactly when the author has no recipe |
| CustomSerializers.Summaries | backend/api/serializers.py:120-122 | the short serializer yields one summary per listed recipe, in order |
| CustomSerializers.AuthorListing | backend/core/custom_serializers.py:12 | `recipe_author.all()` holds exactly the author's recipes and as many as the count |
| CustomSerializers.GetRecipes | backend/core/custom_serializers.py:8-17 | no limit gives every recipe of the author; limit n gives the first min(n, count) in recipe order; a negative limit is Django's slice error |
| CustomSerializers.GetRecipesListsAuthorsRecipesInOrder | backend/core/custom_serializers.py:8-17 | every listed recipe is the author's, none twice, in recipe order, and a limited list is a prefix of the unlimited one |
| CustomSerializers.IsFavorited | backend/core/custom_serializers.py:20-25 | false without a registered user, otherwise true exactly when a favourite row (caller, obj) exists |
| CustomSerializers.IsInShoppingCart | backend/core/custom_serializers.py:28-33 | false for the anonymous user, otherwise true exactly when a cart row (caller, obj) exists |
| CustomSerializers.FavoritedByExactlyOneRow | backend/recipes/models.py:165-172 | in a valid store a favourite flag rests on exactly one row |
| CustomSerializers.FlagsClearedByRecipeDeletion | backend/recipes/models.py:159-163 | after deleting a recipe no caller sees it as favourited or in the cart |
| CustomSerializers.GetIngredients | backend/core/custom_serializers.py:36-44 | one entry per amount row of the recipe, carrying the ingredient's id, name and unit and the row's amount, and as many entries as rows |
| CustomSerializers.ViewsCardinality | backend/recipes/models.py:139-148 | because of `unique_recipe_ingredient`, distinct rows of one recipe give distinct join entries |
| Filters.Select | backend/api/filters.py:10-11 | filter keeps exactly the elements inside the set and exclude exactly those outside it, never more than the input |
| Filters.SelectPartitions | backend/api/filters.py:9-11 | what filter keeps and what exclude keeps add up to the queryset, as multisets |
| Filters.SelectKeepsOrder | backend/api/filters.py:47-52 | filtering a listing in recipe order leaves it in recipe order |
| Filters.QuerysetFilter | backend/api/filters.py:6-11 | the anonymous user gets the queryset unchanged; a registered user gets exactly the related recipes with true and exactly the others with false |
| Filters.QuerysetFilterPartitions | backend/api/filters.py:9-11 | for a registered user the true and false results partition the queryset |
| Filters.IsFavoritedFilter | backend/api/filters.py:47-52 | the anonymous user is a lookup error; otherwise the result is a subset of the input holding exactly the favourited recipes with true and exactly the others with false |
| Filters.IsInShoppingCartFilter | backend/api/filters.py:54-60 | false gives the value `False`; true gives every recipe in the caller's cart, taken from the whole recipe table in recipe order, not from the input |
| Filters.CartFilterEscapesQueryset | backend/api/filters.py:54-60 | from an empty queryset the cart filter still returns a carted recipe |
| Filters.CartFilterIntended | backend/api/filters.py:54-60 | the corrected cart filter returns a subset of the input: the carted recipes with true and the others with false |
| Filters.CartFilterIntendedPartitions | backend/api/filters.py:54-60 | the corrected cart filter's true and false results partition the queryset |
| Filters.TagsFilter | backend/api/filters.py:32-36 | an unknown slug is an invalid choice; no slug leaves the queryset unchanged; otherwise the result is exactly the recipes with at least one tag whose slug was requested |
| Filters.AuthorFilter | backend/api/filters.py:38-45 | an unknown user is an invalid choice; otherwise the result is exactly the recipes of that author |
| Filters.FoldAll | backend/api/filters.py:16-19 | folding a name folds each character and keeps the length |
| Filters.FoldIdempotent | backend/api/filters.py:16-19 | folding a character twice is folding it once |
| Filters.FoldAllIdempotent | backend/api/filters.py:16-19 | folding a string twice is folding it once |
| Filters.IngredientNameFilter | backend/api/filters.py:16-19 | an empty query keeps the queryset; otherwise the result is exactly the ingredients whose name starts with the query, ignoring case |
| Filters.IngredientNameFilterIgnoresCase | backend/api/filters.py:16-19 | the filter gives the same result for a query and for its folded form |
| Serializers.EmptyField | backend/api/serializers.py:236-242 | an empty list fails under the literal key "{field}", and any other list comes back unchanged |
| Serializers.FindRepeat | backend/api/serializers.py:264-270 | the scan that keeps the items seen so far stops exactly when some item occurs twice |
| Serializers.ValidateIngredients | backend/api/serializers.py:256-271 | empty fails in `empty_field`; a repeated whole {id, amount} entry fails with "already added"; otherwise the input is returned; the "no ingredients" error never occurs |
| Serializers.ValidateTags | backend/api/serializers.py:273-288 | empty fails in `empty_field`; a repeated tag fails with "already chosen"; otherwise the input is returned; the "at least one tag" error never occurs |
| Serializers.ValidateWrite | backend/api/serializers.py:224-234 | a payload has an error under a field exactly when that field fails its bounds, existence or list check, and has no error at all exactly when it is accepted |
| Serializers.NewRowsShape | backend/api/serializers.py:297-303 | the bulk insert takes one fresh key per entry, and the row under key `start + i` is entry i's row |
| Serializers.InsertRowsKeepsValid | backend/recipes/models.py:139-148 | a bulk insert of entries with existing, pairwise distinct ids and in-range amounts, for a recipe without rows, keeps every constraint |
| Serializers.AddedRowsFit | backend/recipes/models.py:115-148 | after the insert every amount row has both foreign keys and an in-range amount, and no (recipe, ingredient) pair repeats |
| Serializers.AddedRowsDistinct | backend/recipes/models.py:139-148 | two rows of one insert name different ingredients |
| Serializers.AmountsOnlyChanged | backend/recipes/models.py:115-148 | replacing the amount table by one that obeys the amount constraints keeps the store valid |
| Serializers.RowRange | backend/api/serializers.py:297-303 | the key range of a bulk insert holds exactly n consecutive keys from `start` |
| Serializers.ReadBackAfterInsert | backend/api/serializers.py:297-303 | after the insert the recipe's ingredient join reads back exactly the inserted entries, one per entry |
| Serializers.ViewsOfInserted | backend/core/custom_serializers.py:36-44 | the join over the inserted rows is exactly the join of the entries |
| Serializers.RowsOfAfterInsert | backend/api/serializers.py:297-303 | after the insert the recipe's rows are exactly the inserted ones, with their rows unchanged |
| Serializers.AcceptedEntriesMayCollide | backend/api/serializers.py:264-271 | two entries for one ingredient with different amounts pass validation yet cannot be inserted |
| Serializers.ValidateIngredientIds | backend/api/serializers.py:264-271 | the corrected check: empty fails in `empty_field`, a repeated id fails whatever the amounts, and otherwise the input is returned |
| Serializers.IdCheckedEntriesAreInsertable | backend/recipes/models.py:139-148 | entries the corrected check accepts, whose ids exist, are insertable and also pass the whole-entry check |
| Serializers.ValidateSubscription | backend/api/serializers.py:124-137 | an existing subscription is reported first, then following oneself; otherwise the data is returned unchanged |
| Serializers.ValidationMatchesConstraints | backend/users/models.py:91-99 | on a valid store validation passes exactly when saving the subscription keeps `unique_subscription` and `no_self_subscription` |
| Serializers.SubscriptionsOnlyChanged | backend/users/models.py:68-100 | replacing the subscription table by one that obeys its constraints keeps the store valid |
| Serializers.IsSubscribed | backend/api/serializers.py:76-82 | false for the anonymous user, otherwise true exactly when the subscription (caller, obj) exists |
| Serializers.SubscribeThenValidateAgain | backend/api/serializers.py:124-131 | once the subscription is saved, `is_subscribed` is true and a second attempt is refused as a double subscription |
| Persistence.TagSet | backend/api/serializers.py:295 | `tags.set` leaves exactly the given tags on the recipe |
| Persistence.Revised | backend/api/serializers.py:307-321 | after update the tags are the patch's when it carries tags; the scalar fields are the patch's only when written; author and date never change |
| Persistence.RowsNotOf | backend/api/serializers.py:312 | the delete keeps exactly the rows of other recipes, unchanged |
| Persistence.InsertKeepsOtherRows | backend/api/serializers.py:297-303 | create's insert keeps every earlier row unchanged, and the recipe's rows are exactly the new keys |
| Persistence.ReplaceKeepsOtherRows | backend/api/serializers.py:311-320 | update's delete-then-insert keeps every row of other recipes, drops every earlier row of the recipe, and leaves exactly the new keys as its rows |
| Persistence.PutRecipeKept | backend/recipes/models.py:63-103 | writing a recipe row with an existing author, existing tags and an in-range cooking time keeps the store invariant |
| Persistence.DropRowsKept | backend/api/serializers.py:312 | deleting a recipe's amount rows keeps the store invariant and leaves it without rows |
| Persistence.BulkInsertKept | backend/api/serializers.py:314-320 | the bulk insert keeps the store invariant once the key counter moves past the new keys, and the recipe reads back as its entries |
| Persistence.CreateKept | backend/api/serializers.py:290-305 | create keeps the store invariant; when the insert succeeds the recipe's ingredient join is exactly the payload's entries; when it fails the recipe has no rows |
| Persistence.UpdateKept | backend/api/serializers.py:307-321 | update keeps the store invariant, and with an ingredients key and a successful insert the recipe's join is exactly the patch's entries |
| Persistence.Store.BulkCreate | backend/api/serializers.py:297-303 | the rows are all inserted under consecutive fresh keys exactly when every id exists and none repeats; otherwise nothing changes |
| Persistence.Store.SetTags | backend/api/serializers.py:295 | only the recipe's tag set changes, to exactly the given tags |
| Persistence.Store.Create | backend/api/serializers.py:290-305 | the store stays valid; the recipe is added under a fresh key with the payload's fields and tag set; the rows are inserted exactly when insertable; the key counters move past the new keys; nothing else changes |
| Persistence.Store.Retag | backend/api/serializers.py:308-310 | with a tags key the tag set becomes exactly the given tags; without one the recipes are unchanged |
| Persistence.Store.ReplaceIngredients | backend/api/serializers.py:311-320 | with an ingredients key the recipe's old rows go and the new ones come in exactly when insertable; without one nothing changes |
| Persistence.Store.Update | backend/api/serializers.py:307-321 | the store stays valid; only the recipe changes, as `Revised` says; the amount rows are replaced as `ReplaceKeepsOtherRows` describes, or left alone without an ingredients key; the row counter moves past exactly the inserted keys |

## Left out

- Image handling (`Base64ImageField`, upload paths), the djoser base serializers, `validate_username` and the `ColorField` hex format: their code is not part of this model. An image is an opaque string.
- The `MinValueValidator` on the user CharFields compares a string with a number. It has no meaning to model.
- `max_length` on every CharField is left out. Its values live in the Django settings and in `core.constants`, which are not part of this model.
- The validator bounds of the models (`settings.MIN_AMOUNT`, `settings.MAX_AMOUNT`, `settings.MIN_COOKING_TIME`, `settings.MAX_COOKING_TIME`, backend/recipes/models.py:95-102 and 129-136) and the serializer field bounds imported from `core.constants` (backend/api/serializers.py:10-11, used at 162 and 231-234) are one constant pair each in the model. The model takes the two sources to hold the same values. Only under that assumption does an accepted payload fit the model validators, so that create and update keep `Valid`.
- `PositiveSmallIntegerField` storage width is left out. The validator bounds are modelled, and the width is assumed to contain them.
- Timestamps are left out: `pub_date`, `subscription_date` and the favourite and cart dates. `pub_date` is a parameter of create and an opaque ordered number. The orderings that rest on the other dates are not modelled.
- The default orderings of tags, ingredients, users and amount rows are left out. Queries that list them are modelled as sets.
- `CustomSerializers.GetIngredients`: the join is a set of entries, not an ordered list.
- A `recipes_limit` that is not a number is left out: `int()` raises there. The model takes the parsed limit as an `Option<int>`, where None means absent or empty.
- The shopping-list export, the URL routing and pagination are left out. They contain no logic of the core.
- `to_representation` is left out. It renders through the read serializer, whose getters are modelled.
- The FilterSet declares the cart filter under the name `is_in_shopping_list` (backend/api/filters.py:29), while its own `Meta.fields` lists `is_in_shopping_cart` (backend/api/filters.py:44). Which query parameter name ends up bound to the method, and what `Meta.fields` generates for the other name, is not modelled. The method itself is `Filters.IsInShoppingCartFilter`.
- `ReadRecipeSerializer` assigns the `SerializerMethodField` class without calling it (backend/api/serializers.py:177-179). The framework's handling of that is not modelled. The getters are modelled as the functions they were meant to be.
- `Filters.Fold` lower-cases exactly the Latin capitals A-Z, the Cyrillic capitals U+0410-U+042F (А-Я) and Ё (U+0401). The other capitals of U+0400-U+040F and every other script stay as they are. The database's full case-insensitive comparison is left out.
- `Recipes.NameLe` orders names by code point, character by character. The database orders `name` by its collation, which is not modelled.
- Concurrency, database transactions and constraint races are left out. Every store operation is atomic by construction.
- The shape of DRF error details is abstracted to a field key and a message tag.
- `SubscriptionSerializer.validate` reads the request user without checking for one. The model takes a registered user.
- CustomSerializers.IsInShoppingCart: requires a user object. With `request.user` None the source raises AttributeError on `is_anonymous` (backend/core/custom_serializers.py:30), and that error is not modelled.
- Serializers.IsSubscribed: requires a user object. With None the source raises AttributeError (backend/api/serializers.py:78), and that error is not modelled.
- Filters.QuerysetFilter: requires a user object. With None the source raises AttributeError (backend/api/filters.py:7), and that error is not modelled.
- Filters.IsFavoritedFilter: requires a user object. With None the lookup `favorites__user=None` becomes an `isnull` lookup (backend/api/filters.py:49-51), and that query is not modelled.
- Filters.IsInShoppingCartFilter: requires a user object. With None the lookup becomes an `isnull` lookup (backend/api/filters.py:57), and that query is not modelled.
- Filters.CartFilterIntended: requires a user object, as `Filters.IsInShoppingCartFilter` does.
- `Persistence.Store.Create`: its contract does not state the round trip through `get_ingredients`. That is proved in `Persistence.CreateKept` on the same before and after state, and likewise for `Persistence.Store.Update` in `Persistence.UpdateKept`.
- Only recipe create and update are modelled as methods of the store. The cascades and the subscription insert are modelled as functions on store values.
- The six tables `WriteRecipeSerializer` never writes are constant fields of `Persistence.Store`.

## Findings

| source | as written | input that shows it | evidently intended | confidence | as-written member | corrected member |
|---|---|---|---|---|---|---|
| backend/api/serializers.py:264-271 | duplicates are found by comparing whole {id, amount} entries | `[{id: i, amount: MIN_AMOUNT}, {id: i, amount: MAX_AMOUNT}]` passes validation, and its bulk insert then breaks `unique_recipe_ingredient` | refuse a repeated ingredient id whatever the amounts | not executed | Serializers.AcceptedEntriesMayCollide | Serializers.ValidateIngredientIds |
| backend/api/filters.py:54-60 | true returns every carted recipe from the whole table; false returns the value `False` | an empty queryset and a caller with one carted recipe: the result holds that recipe | filter and exclude within the given queryset, as `is_favorited_filter` does | not executed | Filters.CartFilterEscapesQueryset | Filters.CartFilterIntended |
