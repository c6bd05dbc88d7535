/**
 * The recipe-side tables of backend/recipes/models.py together with the user
 * tables, as one store value `Db`. The declared field bounds, unique
 * constraints and foreign keys become the predicate `Valid`; every
 * on_delete=CASCADE becomes a delete function that keeps `Valid`; the
 * default ordering of recipes becomes `Listing`.
 */
module Recipes {

  import opened Constants
  import opened Sequences
  import opened Users

  type TagId = nat
  type IngredientId = nat
  type RecipeId = nat

  datatype Tag = Tag(name: string, color: string, slug: string)

  datatype Ingredient = Ingredient(name: string, measurementUnit: string)

  /**
   * A recipe row. The plain many-to-many relation to tags is kept on the row
   * as a set; the relation to ingredients goes through `AmountRow`. The image
   * is the stored reference; `pubDate` is the creation timestamp, an opaque
   * ordered value.
   */
  datatype Recipe = Recipe(
    author: UserId,
    name: string,
    image: string,
    text: string,
    tags: set<TagId>,
    cookingTime: int,
    pubDate: nat)

  /** A row of RecipeIngredientAmount: how much of one ingredient one recipe uses. */
  datatype AmountRow = AmountRow(recipe: RecipeId, ingredient: IngredientId, amount: int)

  /** The shape shared by FavoriteRecipe and Cart (AbstractUsersRecipe). */
  datatype UserRecipe = UserRecipe(user: UserId, recipe: RecipeId)

  /** The two tables of shape `UserRecipe`, by their reverse-relation names. */
  datatype Relation = Favorites | ShoppingCart

  datatype Db = Db(
    users: map<UserId, User>,
    subscriptions: map<RowId, Subscription>,
    tags: map<TagId, Tag>,
    ingredients: map<IngredientId, Ingredient>,
    recipes: map<RecipeId, Recipe>,
    amounts: map<RowId, AmountRow>,
    favorites: map<RowId, UserRecipe>,
    carts: map<RowId, UserRecipe>)
  {
    /** The table a relation name selects (`favorites` or `shopping_cart`). */
    function Rows(rel: Relation): map<RowId, UserRecipe> {
      match rel
      case Favorites => favorites
      case ShoppingCart => carts
    }
  }

  // ---------------------------------------------------------------------------
  // Declared constraints

  /** Tag name, color and slug are each declared unique. */
  ghost predicate TagsValid(tags: map<TagId, Tag>) {
    forall a, b :: a in tags && b in tags && a != b ==>
      && tags[a].name != tags[b].name
      && tags[a].color != tags[b].color
      && tags[a].slug != tags[b].slug
  }

  /** The constraint `unique_name_measurement_unit`. */
  ghost predicate IngredientsValid(ingredients: map<IngredientId, Ingredient>) {
    forall a, b :: a in ingredients && b in ingredients && a != b ==> ingredients[a] != ingredients[b]
  }

  /** The author and tags exist, and the cooking time obeys its validators. */
  ghost predicate RecipesValid(db: Db) {
    forall r :: r in db.recipes ==>
      && db.recipes[r].author in db.users
      && db.recipes[r].tags <= db.tags.Keys
      && InCookingTimeRange(db.recipes[r].cookingTime)
  }

  /**
   * Both foreign keys exist, the amount obeys its validators, and the pair
   * (recipe, ingredient) occurs in at most one row (`unique_recipe_ingredient`).
   */
  ghost predicate AmountsValid(db: Db) {
    && (forall k :: k in db.amounts ==>
          && db.amounts[k].recipe in db.recipes
          && db.amounts[k].ingredient in db.ingredients
          && InAmountRange(db.amounts[k].amount))
    && (forall k1, k2 :: k1 in db.amounts && k2 in db.amounts && k1 != k2 ==>
          db.amounts[k1].recipe != db.amounts[k2].recipe ||
          db.amounts[k1].ingredient != db.amounts[k2].ingredient)
  }

  /** Both foreign keys exist and (user, recipe) occurs in at most one row. */
  ghost predicate UserRecipesValid(db: Db, rows: map<RowId, UserRecipe>) {
    && (forall k :: k in rows ==> rows[k].user in db.users && rows[k].recipe in db.recipes)
    && (forall k1, k2 :: k1 in rows && k2 in rows && k1 != k2 ==> rows[k1] != rows[k2])
  }

  /** Every declared constraint of both model files holds. */
  ghost predicate Valid(db: Db) {
    && UsersValid(db.users)
    && SubscriptionsValid(db.users, db.subscriptions)
    && TagsValid(db.tags)
    && IngredientsValid(db.ingredients)
    && RecipesValid(db)
    && AmountsValid(db)
    && UserRecipesValid(db, db.favorites)
    && UserRecipesValid(db, db.carts)
  }

  // ---------------------------------------------------------------------------
  // Queries every module shares

  /** The recipes of `u`: the reverse relation `recipe_author`. */
  function AuthoredBy(recipes: map<RecipeId, Recipe>, u: UserId): set<RecipeId> {
    set r | r in recipes && recipes[r].author == u
  }

  /** The keys of the amount rows that belong to recipe `id`. */
  function RowsOf(amounts: map<RowId, AmountRow>, id: RecipeId): set<RowId> {
    set k | k in amounts && amounts[k].recipe == id
  }

  /** A (user, recipe) row exists in the table `rel` selects. */
  predicate Related(db: Db, rel: Relation, user: UserId, recipe: RecipeId) {
    UserRecipe(user, recipe) in db.Rows(rel).Values
  }

  /** The recipes `user` has a row for in the table `rel` selects. */
  function RelatedRecipes(db: Db, rel: Relation, user: UserId): (s: set<RecipeId>)
    ensures forall r :: r in s <==> Related(db, rel, user, r)
  {
    set k | k in db.Rows(rel) && db.Rows(rel)[k].user == user :: db.Rows(rel)[k].recipe
  }

  // ---------------------------------------------------------------------------
  // Cascades

  /** Drops the recipes in `gone` and every row whose recipe foreign key points into `gone`. */
  function WithoutRecipes(db: Db, gone: set<RecipeId>): (r: Db)
    ensures Valid(db) ==> Valid(r)
    ensures r.recipes.Keys == db.recipes.Keys - gone
    ensures forall k :: k in r.amounts ==> r.amounts[k].recipe !in gone
    ensures forall k :: k in r.favorites ==> r.favorites[k].recipe !in gone
    ensures forall k :: k in r.carts ==> r.carts[k].recipe !in gone
    ensures forall x :: x in db.recipes && x !in gone ==> r.recipes[x] == db.recipes[x]
    ensures forall k :: k in db.amounts && db.amounts[k].recipe !in gone ==> k in r.amounts && r.amounts[k] == db.amounts[k]
    ensures forall k :: k in db.favorites && db.favorites[k].recipe !in gone ==> k in r.favorites && r.favorites[k] == db.favorites[k]
    ensures forall k :: k in db.carts && db.carts[k].recipe !in gone ==> k in r.carts && r.carts[k] == db.carts[k]
    ensures r.amounts.Keys <= db.amounts.Keys && r.favorites.Keys <= db.favorites.Keys && r.carts.Keys <= db.carts.Keys
    ensures r.users == db.users && r.subscriptions == db.subscriptions
    ensures r.tags == db.tags && r.ingredients == db.ingredients
  {
    db.(recipes := map k | k in db.recipes && k !in gone :: db.recipes[k],
        amounts := map k | k in db.amounts && db.amounts[k].recipe !in gone :: db.amounts[k],
        favorites := map k | k in db.favorites && db.favorites[k].recipe !in gone :: db.favorites[k],
        carts := map k | k in db.carts && db.carts[k].recipe !in gone :: db.carts[k])
  }

  /**
   * Deleting a recipe deletes its amount rows, favourites and cart rows
   * (their recipe foreign keys cascade) and nothing else.
   */
  function DeleteRecipe(db: Db, id: RecipeId): (r: Db)
    ensures Valid(db) ==> Valid(r)
    ensures id !in r.recipes
    ensures forall k :: k in r.amounts ==> r.amounts[k].recipe != id
    ensures forall k :: k in r.favorites ==> r.favorites[k].recipe != id
    ensures forall k :: k in r.carts ==> r.carts[k].recipe != id
    ensures forall x :: x in db.recipes && x != id ==> x in r.recipes && r.recipes[x] == db.recipes[x]
    ensures forall k :: k in db.amounts && db.amounts[k].recipe != id ==> k in r.amounts && r.amounts[k] == db.amounts[k]
    ensures forall k :: k in db.favorites && db.favorites[k].recipe != id ==> k in r.favorites && r.favorites[k] == db.favorites[k]
    ensures forall k :: k in db.carts && db.carts[k].recipe != id ==> k in r.carts && r.carts[k] == db.carts[k]
    ensures r.users == db.users && r.subscriptions == db.subscriptions
    ensures r.tags == db.tags && r.ingredients == db.ingredients
  {
    WithoutRecipes(db, {id})
  }

  /**
   * Deleting a user deletes the recipes they authored (with those recipes'
   * own dependants), every subscription in which they are the subscriber or
   * the author, and their favourites and cart rows.
   */
  function DeleteUser(db: Db, u: UserId): (r: Db)
    ensures Valid(db) ==> Valid(r)
    ensures u !in r.users
    ensures forall x :: x in r.recipes ==> r.recipes[x].author != u
    ensures forall k :: k in r.subscriptions ==> r.subscriptions[k].user != u && r.subscriptions[k].author != u
    ensures forall k :: k in r.favorites ==> r.favorites[k].user != u
    ensures forall k :: k in r.carts ==> r.carts[k].user != u
    ensures forall k :: k in r.amounts ==> r.amounts[k].recipe !in AuthoredBy(db.recipes, u)
    ensures forall v :: v in db.users && v != u ==> v in r.users && r.users[v] == db.users[v]
    ensures forall x :: x in db.recipes && db.recipes[x].author != u ==> x in r.recipes && r.recipes[x] == db.recipes[x]
    ensures r.tags == db.tags && r.ingredients == db.ingredients
    ensures r.users == db.users - {u}
    ensures r.recipes.Keys == db.recipes.Keys - AuthoredBy(db.recipes, u)
    ensures forall k :: k in r.favorites ==> r.favorites[k].recipe !in AuthoredBy(db.recipes, u)
    ensures forall k :: k in r.carts ==> r.carts[k].recipe !in AuthoredBy(db.recipes, u)
    ensures forall k :: k in db.subscriptions && db.subscriptions[k].user != u && db.subscriptions[k].author != u ==>
              k in r.subscriptions && r.subscriptions[k] == db.subscriptions[k]
    ensures forall k :: k in db.favorites && db.favorites[k].user != u && db.favorites[k].recipe !in AuthoredBy(db.recipes, u) ==>
              k in r.favorites && r.favorites[k] == db.favorites[k]
    ensures forall k :: k in db.carts && db.carts[k].user != u && db.carts[k].recipe !in AuthoredBy(db.recipes, u) ==>
              k in r.carts && r.carts[k] == db.carts[k]
    ensures forall k :: k in db.amounts && db.amounts[k].recipe !in AuthoredBy(db.recipes, u) ==>
              k in r.amounts && r.amounts[k] == db.amounts[k]
    ensures r.subscriptions.Keys <= db.subscriptions.Keys && r.amounts.Keys <= db.amounts.Keys
    ensures r.favorites.Keys <= db.favorites.Keys && r.carts.Keys <= db.carts.Keys
  {
    var kept := WithoutRecipes(db, AuthoredBy(db.recipes, u));
    var r := kept.(users := db.users - {u},
                   subscriptions := RemoveUserSubscriptions(db.subscriptions, u),
                   favorites := WithoutUser(kept.favorites, u),
                   carts := WithoutUser(kept.carts, u));
    DeleteUserKeepsValid(db, u, kept, r);
    r
  }

  /** The rows of a favourites or cart table whose user is not `u`. */
  function WithoutUser(rows: map<RowId, UserRecipe>, u: UserId): (r: map<RowId, UserRecipe>)
    ensures forall k :: k in r ==> r[k].user != u
    ensures forall k :: k in rows && rows[k].user != u ==> k in r && r[k] == rows[k]
    ensures r.Keys <= rows.Keys
  {
    map k | k in rows && rows[k].user != u :: rows[k]
  }

  lemma DeleteUserKeepsValid(db: Db, u: UserId, kept: Db, r: Db)
    requires kept == WithoutRecipes(db, AuthoredBy(db.recipes, u))
    requires r == kept.(users := db.users - {u},
                        subscriptions := RemoveUserSubscriptions(db.subscriptions, u),
                        favorites := WithoutUser(kept.favorites, u),
                        carts := WithoutUser(kept.carts, u))
    ensures Valid(db) ==> Valid(r)
  {
    if Valid(db) {
      assert Valid(kept);
      UsersShrink(db.users, u);
      SubscriptionsShrink(db.users, db.subscriptions, u);
      assert RecipesValid(r) by {
        forall x | x in r.recipes
          ensures r.recipes[x].author in r.users
        {
          assert x !in AuthoredBy(db.recipes, u);
        }
      }
      assert AmountsValid(r) by {
        assert AmountsValid(kept);
      }
      UserRowsShrink(kept, r, kept.favorites, u);
      UserRowsShrink(kept, r, kept.carts, u);
    }
  }

  lemma UsersShrink(users: map<UserId, User>, u: UserId)
    requires UsersValid(users)
    ensures UsersValid(users - {u})
  {
  }

  lemma SubscriptionsShrink(users: map<UserId, User>, subs: map<RowId, Subscription>, u: UserId)
    requires SubscriptionsValid(users, subs)
    ensures SubscriptionsValid(users - {u}, RemoveUserSubscriptions(subs, u))
  {
  }

  lemma UserRowsShrink(before: Db, after: Db, rows: map<RowId, UserRecipe>, u: UserId)
    requires UserRecipesValid(before, rows)
    requires after.users == before.users - {u} && after.recipes == before.recipes
    ensures UserRecipesValid(after, WithoutUser(rows, u))
  {
  }

  /** Deleting an ingredient deletes the amount rows that use it. */
  function DeleteIngredient(db: Db, i: IngredientId): (r: Db)
    ensures Valid(db) ==> Valid(r)
    ensures i !in r.ingredients
    ensures forall k :: k in r.amounts ==> r.amounts[k].ingredient != i
    ensures forall k :: k in db.amounts && db.amounts[k].ingredient != i ==> k in r.amounts && r.amounts[k] == db.amounts[k]
    ensures r.recipes == db.recipes
    ensures r.ingredients == db.ingredients - {i}
    ensures r.amounts.Keys <= db.amounts.Keys
    ensures r.users == db.users && r.subscriptions == db.subscriptions && r.tags == db.tags
    ensures r.favorites == db.favorites && r.carts == db.carts
  {
    db.(ingredients := db.ingredients - {i},
        amounts := map k | k in db.amounts && db.amounts[k].ingredient != i :: db.amounts[k])
  }

  /** Deleting a tag removes it from every recipe's tag set and keeps the recipes. */
  function DeleteTag(db: Db, t: TagId): (r: Db)
    ensures Valid(db) ==> Valid(r)
    ensures t !in r.tags
    ensures r.recipes.Keys == db.recipes.Keys
    ensures forall x :: x in r.recipes ==> r.recipes[x].tags == db.recipes[x].tags - {t}
    ensures forall x :: x in db.recipes ==> x in r.recipes && r.recipes[x] == db.recipes[x].(tags := db.recipes[x].tags - {t})
    ensures r.tags == db.tags - {t}
    ensures r.users == db.users && r.subscriptions == db.subscriptions && r.ingredients == db.ingredients
    ensures r.amounts == db.amounts && r.favorites == db.favorites && r.carts == db.carts
  {
    db.(tags := db.tags - {t},
        recipes := map x | x in db.recipes :: db.recipes[x].(tags := db.recipes[x].tags - {t}))
  }

  // ---------------------------------------------------------------------------
  // Default ordering of recipes: newest first, then by name

  /** Names compare character by character; a prefix comes first. */
  predicate NameLe(a: string, b: string)
    decreases |a|
  {
    |a| == 0 || (|b| > 0 && (a[0] < b[0] || (a[0] == b[0] && NameLe(a[1..], b[1..]))))
  }

  lemma {:induction false} NameLeTotal(a: string, b: string)
    ensures NameLe(a, b) || NameLe(b, a)
    decreases |a|
  {
    if |a| > 0 && |b| > 0 && a[0] == b[0] {
      NameLeTotal(a[1..], b[1..]);
    }
  }

  lemma {:induction false} NameLeTransitive(a: string, b: string, c: string)
    requires NameLe(a, b) && NameLe(b, c)
    ensures NameLe(a, c)
    decreases |a|
  {
    if |a| > 0 && a[0] == b[0] && b[0] == c[0] {
      NameLeTransitive(a[1..], b[1..], c[1..]);
    }
  }

  /** `x` may be listed before `y` under ordering ('-pub_date', 'name'). */
  predicate Precedes(x: Recipe, y: Recipe) {
    x.pubDate > y.pubDate || (x.pubDate == y.pubDate && NameLe(x.name, y.name))
  }

  lemma PrecedesTotal(x: Recipe, y: Recipe)
    ensures Precedes(x, y) || Precedes(y, x)
  {
    NameLeTotal(x.name, y.name);
  }

  lemma PrecedesTransitive(x: Recipe, y: Recipe, z: Recipe)
    requires Precedes(x, y) && Precedes(y, z)
    ensures Precedes(x, z)
  {
    if x.pubDate == y.pubDate == z.pubDate {
      NameLeTransitive(x.name, y.name, z.name);
    }
  }

  /** `xs` lists recipes of the table in the default recipe order. */
  ghost predicate InRecipeOrder(recipes: map<RecipeId, Recipe>, xs: seq<RecipeId>) {
    && (forall i :: 0 <= i < |xs| ==> xs[i] in recipes)
    && (forall i, j :: 0 <= i < j < |xs| ==> Precedes(recipes[xs[i]], recipes[xs[j]]))
  }

  /** `m` may come first among the recipes `s`. */
  ghost predicate IsFirst(recipes: map<RecipeId, Recipe>, s: set<RecipeId>, m: RecipeId) {
    m in recipes && forall x :: x in s && x in recipes ==> Precedes(recipes[m], recipes[x])
  }

  lemma {:induction false} FirstExists(recipes: map<RecipeId, Recipe>, s: set<RecipeId>)
    requires s != {} && s <= recipes.Keys
    ensures exists m :: m in s && IsFirst(recipes, s, m)
    decreases s
  {
    var y :| y in s;
    PrecedesTotal(recipes[y], recipes[y]);
    if s == {y} {
      assert IsFirst(recipes, s, y);
    } else {
      FirstExists(recipes, s - {y});
      var m :| m in s - {y} && IsFirst(recipes, s - {y}, m);
      PrecedesTotal(recipes[m], recipes[y]);
      if Precedes(recipes[m], recipes[y]) {
        assert IsFirst(recipes, s, m);
      } else {
        forall x | x in s && x in recipes
          ensures Precedes(recipes[y], recipes[x])
        {
          if x != y {
            PrecedesTransitive(recipes[y], recipes[m], recipes[x]);
          }
        }
        assert IsFirst(recipes, s, y);
      }
    }
  }

  /**
   * The recipes `s` as the database lists them: each exactly once, newest
   * first, equal dates by name. Recipes equal in both keys come in an order
   * the model leaves open.
   */
  ghost function Listing(recipes: map<RecipeId, Recipe>, s: set<RecipeId>): (r: seq<RecipeId>)
    requires s <= recipes.Keys
    ensures |r| == |s| && Distinct(r)
    ensures forall x :: x in r <==> x in s
    ensures InRecipeOrder(recipes, r)
    decreases s
  {
    if s == {} then []
    else
      FirstExists(recipes, s);
      var m :| m in s && IsFirst(recipes, s, m);
      [m] + Listing(recipes, s - {m})
  }
}
