/**
 * The read-side getters of backend/core/custom_serializers.py: the recipe
 * count and the limited recipe list of an author, the caller-relative
 * favourite and cart flags, and the ingredient-with-amount join of a recipe.
 * backend/api/serializers.py carries the same getters
 * (SubscriptionSerializer.get_recipes_count/get_recipes and
 * ReadRecipeSerializer.get_*), which these functions model as well.
 */
module CustomSerializers {

  import opened Wrappers
  import opened Sequences
  import opened Users
  import opened Recipes

  /**
   * The user a request carries: no user object at all, the anonymous user,
   * or a registered user.
   */
  datatype Caller = Absent | Anonymous | Member(id: UserId)

  // ---------------------------------------------------------------------------
  // get_recipes_count and get_recipes

  /** `obj.recipe_author.count()`. */
  function RecipesCount(db: Db, author: UserId): (n: nat)
    ensures n <= |db.recipes|
    ensures n == 0 <==> forall x :: x in db.recipes ==> db.recipes[x].author != author
  {
    var mine := AuthoredBy(db.recipes, author);
    assert |mine| <= |db.recipes| by {
      assert mine <= db.recipes.Keys;
      SubsetCardinality(mine, db.recipes.Keys);
    }
    assert mine == {} <==> forall x :: x in db.recipes ==> db.recipes[x].author != author by {
      if mine != {} {
        var x :| x in mine;
        assert x in db.recipes && db.recipes[x].author == author;
      } else {
        forall x | x in db.recipes
          ensures db.recipes[x].author != author
        {
          assert x !in mine;
        }
      }
    }
    |mine|
  }

  lemma SubsetCardinality<T>(a: set<T>, b: set<T>)
    requires a <= b
    ensures |a| <= |b|
  {
    assert b == a + (b - a);
  }

  /** One recipe as the short recipe serializer shows it. */
  datatype RecipeSummary = RecipeSummary(id: RecipeId, name: string, image: string, cookingTime: int)

  function Summary(db: Db, id: RecipeId): RecipeSummary
    requires id in db.recipes
  {
    RecipeSummary(id, db.recipes[id].name, db.recipes[id].image, db.recipes[id].cookingTime)
  }

  function Summaries(db: Db, ids: seq<RecipeId>): (r: seq<RecipeSummary>)
    requires forall x :: x in ids ==> x in db.recipes
    ensures |r| == |ids|
    ensures forall i :: 0 <= i < |ids| ==> r[i] == Summary(db, ids[i])
  {
    if ids == [] then [] else [Summary(db, ids[0])] + Summaries(db, ids[1..])
  }

  /** `obj.recipe_author.all()` in the default recipe order. */
  ghost function AuthorListing(db: Db, author: UserId): (r: seq<RecipeId>)
    ensures |r| == RecipesCount(db, author)
    ensures forall x :: x in r <==> x in db.recipes && db.recipes[x].author == author
  {
    Listing(db.recipes, AuthoredBy(db.recipes, author))
  }

  /** The only way the recipe limit can fail: Django refuses a negative slice bound. */
  datatype LimitError = NegativeIndexing

  /**
   * `get_recipes`: `limit` is the `recipes_limit` query parameter, None when
   * it is absent or empty. A given limit n keeps the first n recipes of the
   * author's listing, all of them when n exceeds their number.
   */
  ghost function GetRecipes(db: Db, author: UserId, limit: Option<int>): (r: Result<seq<RecipeSummary>, LimitError>)
    ensures r.Err? <==> limit.Some? && limit.value < 0
    ensures r.Ok? && limit.None? ==> |r.value| == RecipesCount(db, author)
    ensures r.Ok? && limit.Some? ==>
      |r.value| == if limit.value < RecipesCount(db, author) then limit.value else RecipesCount(db, author)
    ensures r.Ok? ==> forall i :: 0 <= i < |r.value| ==> r.value[i] == Summary(db, AuthorListing(db, author)[i])
  {
    var listing := AuthorListing(db, author);
    match limit
    case None => Ok(Summaries(db, listing))
    case Some(n) =>
      if n < 0 then Err(NegativeIndexing)
      else if n < |listing| then Ok(Summaries(db, listing[..n]))
      else Ok(Summaries(db, listing))
  }

  /**
   * Every recipe `get_recipes` returns is the author's, none twice, newest
   * first; and a limited list is a prefix of the unlimited one.
   */
  lemma GetRecipesListsAuthorsRecipesInOrder(db: Db, author: UserId, limit: Option<int>)
    requires GetRecipes(db, author, limit).Ok?
    ensures var shown := GetRecipes(db, author, limit).value;
      && (forall i :: 0 <= i < |shown| ==>
            shown[i].id in db.recipes && db.recipes[shown[i].id].author == author)
      && (forall i, j :: 0 <= i < j < |shown| ==>
            shown[i].id != shown[j].id && Precedes(db.recipes[shown[i].id], db.recipes[shown[j].id]))
      && shown <= GetRecipes(db, author, None).value
  {
    var listing := AuthorListing(db, author);
    var shown := GetRecipes(db, author, limit).value;
    var all := GetRecipes(db, author, None).value;
    assert Distinct(listing) && InRecipeOrder(db.recipes, listing) by {
      assert listing == Listing(db.recipes, AuthoredBy(db.recipes, author));
    }
    forall i | 0 <= i < |shown|
      ensures shown[i].id == listing[i] && shown[i] == all[i]
    {
    }
    forall i, j | 0 <= i < j < |shown|
      ensures shown[i].id != shown[j].id && Precedes(db.recipes[shown[i].id], db.recipes[shown[j].id])
    {
      assert shown[i].id == listing[i] && shown[j].id == listing[j];
    }
    assert shown <= all;
  }

  // ---------------------------------------------------------------------------
  // get_is_favorited and get_is_in_shopping_cart

  /**
   * `get_is_favorited`: false unless the request carries a registered user;
   * then whether that user has a favourite row for `obj`.
   */
  function IsFavorited(db: Db, caller: Caller, obj: RecipeId): (b: bool)
    ensures b <==> caller.Member? && exists k :: k in db.favorites && db.favorites[k] == UserRecipe(caller.id, obj)
  {
    if caller.Member? then Related(db, Favorites, caller.id, obj) else false
  }

  /**
   * `get_is_in_shopping_cart`: false for the anonymous user, otherwise
   * whether the caller has a cart row for `obj`. The source reads
   * `user.is_anonymous` without first checking that a user is there.
   */
  function IsInShoppingCart(db: Db, caller: Caller, obj: RecipeId): (b: bool)
    requires !caller.Absent?
    ensures b <==> caller.Member? && exists k :: k in db.carts && db.carts[k] == UserRecipe(caller.id, obj)
  {
    if !caller.Anonymous? then Related(db, ShoppingCart, caller.id, obj) else false
  }

  /** In a valid store a caller's favourite flag on a recipe rests on exactly one row. */
  lemma FavoritedByExactlyOneRow(db: Db, u: UserId, obj: RecipeId)
    requires Valid(db) && IsFavorited(db, Member(u), obj)
    ensures exists k ::
              && k in db.favorites && db.favorites[k] == UserRecipe(u, obj)
              && (forall k' :: k' in db.favorites && db.favorites[k'] == UserRecipe(u, obj) ==> k' == k)
  {
  }

  /** Deleting the recipe clears every caller's favourite and cart flags on it. */
  lemma FlagsClearedByRecipeDeletion(db: Db, caller: Caller, obj: RecipeId)
    requires !caller.Absent?
    ensures !IsFavorited(DeleteRecipe(db, obj), caller, obj)
    ensures !IsInShoppingCart(DeleteRecipe(db, obj), caller, obj)
  {
  }

  // ---------------------------------------------------------------------------
  // get_ingredients

  /** One entry of the ingredient join: the ingredient's fields and the row's amount. */
  datatype IngredientView = IngredientView(id: IngredientId, name: string, measurementUnit: string, amount: int)

  function View(db: Db, row: AmountRow): IngredientView
    requires row.ingredient in db.ingredients
  {
    var i := db.ingredients[row.ingredient];
    IngredientView(row.ingredient, i.name, i.measurementUnit, row.amount)
  }

  function ViewsOf(db: Db, keys: set<RowId>): set<IngredientView>
    requires forall k :: k in keys ==> k in db.amounts && db.amounts[k].ingredient in db.ingredients
  {
    set k | k in keys :: View(db, db.amounts[k])
  }

  /**
   * `get_ingredients`: one entry per amount row of `obj`, carrying the
   * ingredient's id, name and unit and the row's amount.
   */
  function GetIngredients(db: Db, obj: RecipeId): (r: set<IngredientView>)
    requires Valid(db)
    ensures forall v :: v in r <==> exists k :: k in RowsOf(db.amounts, obj) && v == View(db, db.amounts[k])
    ensures |r| == |RowsOf(db.amounts, obj)|
  {
    ViewsCardinality(db, obj, RowsOf(db.amounts, obj));
    ViewsOf(db, RowsOf(db.amounts, obj))
  }

  /**
   * Distinct rows of one recipe give distinct entries, because no ingredient
   * occurs twice in one recipe.
   */
  lemma {:induction false} ViewsCardinality(db: Db, obj: RecipeId, keys: set<RowId>)
    requires Valid(db)
    requires keys <= RowsOf(db.amounts, obj)
    ensures |ViewsOf(db, keys)| == |keys|
    decreases keys
  {
    if keys != {} {
      var k0 :| k0 in keys;
      var rest := keys - {k0};
      ViewsCardinality(db, obj, rest);
      assert ViewsOf(db, keys) == ViewsOf(db, rest) + {View(db, db.amounts[k0])};
      assert View(db, db.amounts[k0]) !in ViewsOf(db, rest);
    }
  }
}
