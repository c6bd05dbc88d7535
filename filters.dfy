/**
 * The query filters of backend/api/filters.py. A queryset is the sequence of
 * primary keys it yields, in order; `filter` and `exclude` keep the order of
 * what they keep.
 */
module Filters {

  import opened Wrappers
  import opened Sequences
  import opened Users
  import opened Recipes
  import opened CustomSerializers

  // ---------------------------------------------------------------------------
  // filter / exclude on a queryset

  /**
   * The elements of `qs` whose membership in `s` equals `inside`:
   * `qs.filter(...)` when `inside` holds, `qs.exclude(...)` otherwise.
   */
  function Select<T(==,!new)>(qs: seq<T>, s: set<T>, inside: bool): (r: seq<T>)
    ensures forall x :: x in r <==> x in qs && (x in s <==> inside)
    ensures |r| <= |qs|
  {
    if qs == [] then []
    else (if (qs[0] in s) == inside then [qs[0]] else []) + Select(qs[1..], s, inside)
  }

  /** What filter keeps and what exclude keeps add up to the queryset. */
  lemma {:induction false} SelectPartitions<T(!new)>(qs: seq<T>, s: set<T>)
    ensures multiset(Select(qs, s, true)) + multiset(Select(qs, s, false)) == multiset(qs)
  {
    if qs != [] {
      SelectPartitions(qs[1..], s);
      assert qs == [qs[0]] + qs[1..];
    }
  }

  /** A listing in recipe order stays in recipe order after filtering. */
  lemma {:induction false} SelectKeepsOrder(recipes: map<RecipeId, Recipe>, qs: seq<RecipeId>, s: set<RecipeId>, inside: bool)
    requires InRecipeOrder(recipes, qs)
    ensures InRecipeOrder(recipes, Select(qs, s, inside))
  {
    if qs != [] {
      var tail := qs[1..];
      assert InRecipeOrder(recipes, tail) by {
        forall i, j | 0 <= i < j < |tail|
          ensures Precedes(recipes[tail[i]], recipes[tail[j]])
        {
          assert tail[i] == qs[i + 1] && tail[j] == qs[j + 1];
        }
      }
      SelectKeepsOrder(recipes, tail, s, inside);
      var rest := Select(tail, s, inside);
      forall x | x in rest
        ensures x in recipes && Precedes(recipes[qs[0]], recipes[x])
      {
        var j :| 0 <= j < |tail| && tail[j] == x;
        assert qs[j + 1] == x;
      }
      if (qs[0] in s) == inside {
        var r := [qs[0]] + rest;
        assert Select(qs, s, inside) == r;
        forall i | 0 <= i < |r|
          ensures r[i] in recipes
        {
          if i > 0 {
            assert r[i] == rest[i - 1];
          }
        }
        forall i, j | 0 <= i < j < |r|
          ensures Precedes(recipes[r[i]], recipes[r[j]])
        {
          assert r[j] == rest[j - 1] && rest[j - 1] in rest;
          if i > 0 {
            assert r[i] == rest[i - 1];
          }
        }
      } else {
        assert Select(qs, s, inside) == rest;
      }
    }
  }

  // ---------------------------------------------------------------------------
  // get_queryset_filter

  /**
   * `get_queryset_filter`: the anonymous user gets the queryset unchanged;
   * a registered user gets the recipes related to them through `rel` when
   * `value` holds and the others when it does not.
   */
  function QuerysetFilter(db: Db, qs: seq<RecipeId>, caller: Caller, value: bool, rel: Relation): (r: seq<RecipeId>)
    requires !caller.Absent?
    ensures caller.Anonymous? ==> r == qs
    ensures caller.Member? ==> forall x :: x in r <==> x in qs && (Related(db, rel, caller.id, x) <==> value)
  {
    if caller.Anonymous? then qs
    else Select(qs, RelatedRecipes(db, rel, caller.id), value)
  }

  /** For a registered user the true and false results split the queryset between them. */
  lemma QuerysetFilterPartitions(db: Db, qs: seq<RecipeId>, u: UserId, rel: Relation)
    ensures multiset(QuerysetFilter(db, qs, Member(u), true, rel)) +
            multiset(QuerysetFilter(db, qs, Member(u), false, rel)) == multiset(qs)
  {
    SelectPartitions(qs, RelatedRecipes(db, rel, u));
  }

  // ---------------------------------------------------------------------------
  // RecipeFilter

  /**
   * What a RecipeFilter method hands back: a queryset, the value `False`, or
   * the TypeError Django raises when the anonymous user is used as a lookup value.
   */
  datatype Outcome = Rows(ids: seq<RecipeId>) | FalseValue | BadLookupValue

  /**
   * `is_favorited_filter`: with true the caller's favourites among `qs`,
   * with false the rest of `qs`. It has no anonymous bypass.
   */
  function IsFavoritedFilter(db: Db, qs: seq<RecipeId>, caller: Caller, value: bool): (r: Outcome)
    requires !caller.Absent?
    ensures caller.Anonymous? <==> r == BadLookupValue
    ensures caller.Member? ==>
              && r.Rows? && |r.ids| <= |qs|
              && forall x :: x in r.ids <==> x in qs && (IsFavorited(db, caller, x) <==> value)
  {
    if caller.Anonymous? then BadLookupValue
    else Rows(Select(qs, RelatedRecipes(db, Favorites, caller.id), value))
  }

  /**
   * `is_in_shopping_cart_filter`, as written: with true every recipe in the
   * caller's cart, drawn from the whole recipe table in recipe order rather
   * than from `qs`; with false the value `False`.
   */
  ghost function IsInShoppingCartFilter(db: Db, qs: seq<RecipeId>, caller: Caller, value: bool): (r: Outcome)
    requires !caller.Absent?
    ensures !value ==> r == FalseValue
    ensures value && caller.Anonymous? ==> r == BadLookupValue
    ensures value && caller.Member? ==>
              && r.Rows? && Distinct(r.ids) && InRecipeOrder(db.recipes, r.ids)
              && (forall x :: x in r.ids <==> x in db.recipes && IsInShoppingCart(db, caller, x))
  {
    if !value then FalseValue
    else if caller.Anonymous? then BadLookupValue
    else Rows(Listing(db.recipes, RelatedRecipes(db, ShoppingCart, caller.id) * db.recipes.Keys))
  }

  /**
   * The queryset `is_in_shopping_cart_filter` is given does not bound what it
   * returns: from an empty queryset it still returns a carted recipe.
   */
  lemma CartFilterEscapesQueryset(db: Db, u: UserId, x: RecipeId)
    requires x in db.recipes && Related(db, ShoppingCart, u, x)
    ensures var r := IsInShoppingCartFilter(db, [], Member(u), true);
      r.Rows? && x in r.ids && !(forall y :: y in r.ids ==> y in [])
  {
    assert IsInShoppingCart(db, Member(u), x);
  }

  /**
   * The cart filter as it was evidently meant, the same shape as
   * `is_favorited_filter`: with true the caller's carted recipes among `qs`,
   * with false the rest of `qs`.
   */
  function CartFilterIntended(db: Db, qs: seq<RecipeId>, caller: Caller, value: bool): (r: Outcome)
    requires !caller.Absent?
    ensures caller.Anonymous? <==> r == BadLookupValue
    ensures caller.Member? ==>
              && r.Rows? && |r.ids| <= |qs|
              && forall x :: x in r.ids <==> x in qs && (IsInShoppingCart(db, caller, x) <==> value)
  {
    if caller.Anonymous? then BadLookupValue
    else Rows(Select(qs, RelatedRecipes(db, ShoppingCart, caller.id), value))
  }

  /** The intended cart filter splits the queryset between its true and false results. */
  lemma CartFilterIntendedPartitions(db: Db, qs: seq<RecipeId>, u: UserId)
    ensures CartFilterIntended(db, qs, Member(u), true).Rows?
    ensures CartFilterIntended(db, qs, Member(u), false).Rows?
    ensures multiset(CartFilterIntended(db, qs, Member(u), true).ids) +
            multiset(CartFilterIntended(db, qs, Member(u), false).ids) == multiset(qs)
  {
    SelectPartitions(qs, RelatedRecipes(db, ShoppingCart, u));
  }

  /** Why the tags or author filter refuses a request. */
  datatype FilterError = InvalidChoice

  /** The recipes with at least one tag whose slug is among `slugs`. */
  function TaggedWith(db: Db, slugs: seq<string>): set<RecipeId> {
    set x | x in db.recipes && exists t :: t in db.recipes[x].tags && t in db.tags && db.tags[t].slug in slugs
  }

  /**
   * The `tags` filter: every requested slug must name a tag; no slug leaves
   * the queryset as it is; otherwise it keeps the recipes with at least one
   * tag among the requested ones.
   */
  function TagsFilter(db: Db, qs: seq<RecipeId>, slugs: seq<string>): (r: Result<seq<RecipeId>, FilterError>)
    ensures r.Err? <==> exists s :: s in slugs && forall t :: t in db.tags ==> db.tags[t].slug != s
    ensures r.Ok? && slugs == [] ==> r.value == qs
    ensures r.Ok? && slugs != [] ==> forall x :: x in r.value <==>
      x in qs && x in db.recipes && exists t :: t in db.recipes[x].tags && t in db.tags && db.tags[t].slug in slugs
  {
    if exists s :: s in slugs && forall t :: t in db.tags ==> db.tags[t].slug != s then Err(InvalidChoice)
    else if slugs == [] then Ok(qs)
    else Ok(Select(qs, TaggedWith(db, slugs), true))
  }

  /**
   * The `author` filter generated from the model field: the id must name a
   * user, and the recipes by that user are kept.
   */
  function AuthorFilter(db: Db, qs: seq<RecipeId>, author: UserId): (r: Result<seq<RecipeId>, FilterError>)
    ensures r.Err? <==> author !in db.users
    ensures r.Ok? ==> forall x :: x in r.value <==> x in qs && x in db.recipes && db.recipes[x].author == author
  {
    if author !in db.users then Err(InvalidChoice)
    else Ok(Select(qs, AuthoredBy(db.recipes, author), true))
  }

  // ---------------------------------------------------------------------------
  // IngredientFilter

  /**
   * Case folding for the case-insensitive prefix match: Latin A-Z and the
   * Cyrillic capitals (with Ё) go to lower case, everything else stays.
   */
  function Fold(c: char): char {
    if 'A' <= c <= 'Z' then (c as int + 32) as char
    else if '\U{0410}' <= c <= '\U{042F}' then (c as int + 32) as char
    else if c == '\U{0401}' then '\U{0451}'
    else c
  }

  lemma FoldIdempotent(c: char)
    ensures Fold(Fold(c)) == Fold(c)
  {
  }

  function FoldAll(s: string): (r: string)
    ensures |r| == |s|
    ensures forall i :: 0 <= i < |s| ==> r[i] == Fold(s[i])
  {
    if s == [] then [] else [Fold(s[0])] + FoldAll(s[1..])
  }

  lemma FoldAllIdempotent(s: string)
    ensures FoldAll(FoldAll(s)) == FoldAll(s)
  {
    var once := FoldAll(s);
    forall i | 0 <= i < |once|
      ensures FoldAll(once)[i] == once[i]
    {
      FoldIdempotent(s[i]);
    }
  }

  /** `name` starts with `query`, compared case-insensitively. */
  predicate StartsWithFold(name: string, query: string) {
    |query| <= |name| && FoldAll(name[..|query|]) == FoldAll(query)
  }

  /**
   * IngredientFilter's `name` parameter (`istartswith`): an empty query
   * leaves the queryset alone; otherwise it keeps the ingredients whose name
   * starts with the query, ignoring case.
   */
  function IngredientNameFilter(db: Db, qs: seq<IngredientId>, query: string): (r: seq<IngredientId>)
    ensures query == [] ==> r == qs
    ensures query != [] ==> forall i :: i in r <==>
      i in qs && i in db.ingredients && StartsWithFold(db.ingredients[i].name, query)
  {
    if query == [] then qs
    else Select(qs, NameMatches(db, query), true)
  }

  /** The ingredients whose name starts with `query`, ignoring case. */
  function NameMatches(db: Db, query: string): set<IngredientId> {
    set i | i in db.ingredients && StartsWithFold(db.ingredients[i].name, query)
  }

  /** The filter does not see the case of the query. */
  lemma IngredientNameFilterIgnoresCase(db: Db, qs: seq<IngredientId>, query: string)
    ensures IngredientNameFilter(db, qs, FoldAll(query)) == IngredientNameFilter(db, qs, query)
  {
    FoldAllIdempotent(query);
    if query != [] {
      var folded := FoldAll(query);
      forall i | i in db.ingredients
        ensures StartsWithFold(db.ingredients[i].name, folded) <==> StartsWithFold(db.ingredients[i].name, query)
      {
      }
      assert NameMatches(db, folded) == NameMatches(db, query);
    }
  }
}
