/**
 * The database as the write serializer changes it: one field per table,
 * updated in place by `WriteRecipeSerializer.create` and `.update`, with the
 * key counters the database hands out. `Snapshot` reads the tables back as
 * the value every specification function works on.
 */
module Persistence {

  import opened Wrappers
  import opened Constants
  import opened Users
  import opened Recipes
  import opened CustomSerializers
  import opened Serializers

  /** The tag set `tags.set(...)` leaves on a recipe. */
  function TagSet(tags: seq<TagId>): (r: set<TagId>)
    ensures forall t :: t in r <==> t in tags
  {
    set t | t in tags
  }

  /** The fields a partial update may carry; an absent key is None. */
  datatype RecipePatch = RecipePatch(
    ingredients: Option<seq<IngredientEntry>>,
    tags: Option<seq<TagId>>,
    name: Option<string>,
    image: Option<string>,
    text: Option<string>,
    cookingTime: Option<int>)

  /** Every field the patch carries passes validation. */
  ghost predicate PatchAccepted(db: Db, q: RecipePatch) {
    && (q.ingredients.Some? ==> IngredientsAccepted(q.ingredients.value))
    && (q.tags.Some? ==> TagsAccepted(db, q.tags.value))
    && (q.cookingTime.Some? ==> InCookingTimeRange(q.cookingTime.value))
  }

  /** What the model serializer's own update writes: each scalar field the patch carries. */
  function Patched(r: Recipe, q: RecipePatch): Recipe {
    r.(name := if q.name.Some? then q.name.value else r.name,
       image := if q.image.Some? then q.image.value else r.image,
       text := if q.text.Some? then q.text.value else r.text,
       cookingTime := if q.cookingTime.Some? then q.cookingTime.value else r.cookingTime)
  }

  /**
   * The recipe row `update` leaves behind: the patch's tag set when it
   * carries tags, and the patch's scalar fields when they were written.
   */
  function Revised(r: Recipe, q: RecipePatch, written: bool): (v: Recipe)
    ensures v.tags == if q.tags.Some? then TagSet(q.tags.value) else r.tags
    ensures v.author == r.author && v.pubDate == r.pubDate
    ensures v.name == (if written && q.name.Some? then q.name.value else r.name)
    ensures v.image == (if written && q.image.Some? then q.image.value else r.image)
    ensures v.text == (if written && q.text.Some? then q.text.value else r.text)
    ensures v.cookingTime == (if written && q.cookingTime.Some? then q.cookingTime.value else r.cookingTime)
  {
    var tagged := if q.tags.Some? then r.(tags := TagSet(q.tags.value)) else r;
    if written then Patched(tagged, q) else tagged
  }

  /** The amount table without the rows of recipe `id`: exactly the other rows stay. */
  function RowsNotOf(amounts: map<RowId, AmountRow>, id: RecipeId): (r: map<RowId, AmountRow>)
    ensures forall k :: k in r <==> k in amounts && amounts[k].recipe != id
    ensures forall k :: k in r ==> r[k] == amounts[k]
  {
    map k | k in amounts && amounts[k].recipe != id :: amounts[k]
  }

  /**
   * `create`'s insert only adds rows: with every key in use below `start`,
   * every earlier row is still there unchanged, and the recipe's rows are
   * exactly the new ones.
   */
  lemma InsertKeepsOtherRows(amounts: map<RowId, AmountRow>, id: RecipeId, entries: seq<IngredientEntry>, start: RowId)
    requires forall e :: e in entries ==> e.id >= 0
    requires forall k :: k in amounts ==> k < start && amounts[k].recipe != id
    ensures var after := amounts + NewRows(id, entries, start);
      && (forall k :: k in amounts ==> k in after && after[k] == amounts[k])
      && RowsOf(after, id) == RowRange(start, |entries|)
  {
    NewRowsShape(id, entries, start);
    RowsOfAfterInsert(amounts, id, entries, start);
  }

  /**
   * `update`'s delete-then-insert: every row of another recipe stays
   * unchanged, no earlier row of the recipe survives, and the recipe's rows
   * are exactly the new ones.
   */
  lemma ReplaceKeepsOtherRows(amounts: map<RowId, AmountRow>, id: RecipeId, entries: seq<IngredientEntry>, start: RowId)
    requires forall e :: e in entries ==> e.id >= 0
    requires forall k :: k in amounts ==> k < start
    ensures var after := RowsNotOf(amounts, id) + NewRows(id, entries, start);
      && (forall k :: k in amounts && amounts[k].recipe != id ==> k in after && after[k] == amounts[k])
      && (forall k :: k in amounts && amounts[k].recipe == id ==> k !in after)
      && RowsOf(after, id) == RowRange(start, |entries|)
  {
    NewRowsShape(id, entries, start);
    RowsOfAfterInsert(RowsNotOf(amounts, id), id, entries, start);
  }

  /** The store's invariant on values: every constraint holds and every key in use lies below its counter. */
  ghost predicate Stored(db: Db, nextRecipe: RecipeId, nextRow: RowId) {
    && Recipes.Valid(db)
    && (forall x :: x in db.recipes ==> x < nextRecipe)
    && (forall k :: k in db.amounts ==> k < nextRow)
  }

  /** No amount row points at a key the recipe counter has not handed out yet. */
  lemma NoRowsAbove(db: Db, nextRecipe: RecipeId, nextRow: RowId, id: RecipeId)
    requires Stored(db, nextRecipe, nextRow) && nextRecipe <= id
    ensures id !in db.recipes
    ensures forall k :: k in db.amounts ==> db.amounts[k].recipe != id
  {
    assert AmountsValid(db);
  }

  /**
   * Writing recipe row `id` below the (possibly advanced) recipe counter
   * keeps the invariant when the row obeys its own constraints.
   */
  lemma PutRecipeKept(db: Db, after: Db, id: RecipeId, r: Recipe, bound: RecipeId, nextRecipe: RecipeId, nextRow: RowId)
    requires Stored(db, bound, nextRow) && bound <= nextRecipe && id < nextRecipe
    requires r.author in db.users && r.tags <= db.tags.Keys && InCookingTimeRange(r.cookingTime)
    requires after == db.(recipes := db.recipes[id := r])
    ensures Stored(after, nextRecipe, nextRow)
  {
    assert AmountsValid(after) by { assert AmountsValid(db); }
    assert UserRecipesValid(after, after.favorites) by { assert UserRecipesValid(db, db.favorites); }
    assert UserRecipesValid(after, after.carts) by { assert UserRecipesValid(db, db.carts); }
  }

  /** Dropping every amount row of one recipe keeps the invariant and leaves the recipe without rows. */
  lemma DropRowsKept(db: Db, after: Db, id: RecipeId, nextRecipe: RecipeId, nextRow: RowId)
    requires Stored(db, nextRecipe, nextRow)
    requires after == db.(amounts := RowsNotOf(db.amounts, id))
    ensures Stored(after, nextRecipe, nextRow)
    ensures forall k :: k in after.amounts ==> after.amounts[k].recipe != id
  {
    assert AmountsValid(db);
    AmountsOnlyChanged(db, after.amounts);
  }

  /**
   * A bulk insert of acceptable entries for a recipe without rows keeps the
   * invariant once the row counter moves past the new keys, and the recipe
   * then reads back as its entries.
   */
  lemma BulkInsertKept(db: Db, after: Db, nextRecipe: RecipeId, recipe: RecipeId, entries: seq<IngredientEntry>, start: RowId)
    requires Stored(db, nextRecipe, start)
    requires recipe in db.recipes && forall k :: k in db.amounts ==> db.amounts[k].recipe != recipe
    requires forall e :: e in entries ==> InAmountRange(e.amount)
    requires EntriesInsertable(db.ingredients, entries)
    requires after == db.(amounts := db.amounts + NewRows(recipe, entries, start))
    ensures Stored(after, nextRecipe, start + |entries|)
    ensures GetIngredients(after, recipe) == EntryViews(db.ingredients, entries)
  {
    ReadBackAfterInsert(db, recipe, entries, start);
    NewRowsShape(recipe, entries, start);
  }

  /**
   * `create` keeps the invariant: the new recipe row obeys its constraints,
   * and its rows, when inserted, read back as the payload's entries.
   */
  lemma CreateKept(db: Db, after: Db, r: Recipe, p: RecipePayload, id: RecipeId, saved: bool,
                   start: RowId, nextRecipe: RecipeId, nextRow: RowId)
    requires Stored(db, id, start) && nextRecipe == id + 1
    requires nextRow == if saved then start + |p.ingredients| else start
    requires r.author in db.users && Accepted(db, p) && r.tags == TagSet(p.tags) && r.cookingTime == p.cookingTime
    requires saved == EntriesInsertable(db.ingredients, p.ingredients)
    requires after == db.(recipes := db.recipes[id := r],
                          amounts := if saved then db.amounts + NewRows(id, p.ingredients, start) else db.amounts)
    ensures Stored(after, nextRecipe, nextRow)
    ensures saved ==> GetIngredients(after, id) == EntryViews(db.ingredients, p.ingredients)
    ensures !saved ==> RowsOf(after.amounts, id) == {}
  {
    NoRowsAbove(db, id, start, id);
    var created := db.(recipes := db.recipes[id := r]);
    PutRecipeKept(db, created, id, r, id, id + 1, start);
    if saved {
      BulkInsertKept(created, after, id + 1, id, p.ingredients, start);
    }
  }

  /**
   * `update` keeps the invariant: the revised row obeys its constraints,
   * the recipe's old rows go, and the new ones, when inserted, read back as
   * the patch's entries.
   */
  lemma UpdateKept(db: Db, after: Db, id: RecipeId, q: RecipePatch, saved: bool, amounts: map<RowId, AmountRow>,
                   nextRecipe: RecipeId, start: RowId, nextRow: RowId)
    requires Stored(db, nextRecipe, start) && id in db.recipes && PatchAccepted(db, q)
    requires q.ingredients.None? ==> saved && amounts == db.amounts && nextRow == start
    requires q.ingredients.Some? ==> saved == EntriesInsertable(db.ingredients, q.ingredients.value)
    requires q.ingredients.Some? && saved ==>
      amounts == RowsNotOf(db.amounts, id) + NewRows(id, q.ingredients.value, start) && nextRow == start + |q.ingredients.value|
    requires q.ingredients.Some? && !saved ==> amounts == RowsNotOf(db.amounts, id) && nextRow == start
    requires after == db.(recipes := db.recipes[id := Revised(db.recipes[id], q, saved)], amounts := amounts)
    ensures Stored(after, nextRecipe, nextRow)
    ensures q.ingredients.Some? && saved ==> GetIngredients(after, id) == EntryViews(db.ingredients, q.ingredients.value)
  {
    var r := Revised(db.recipes[id], q, saved);
    assert RecipesValid(db);
    var revised := db.(recipes := db.recipes[id := r]);
    PutRecipeKept(db, revised, id, r, nextRecipe, nextRecipe, start);
    if q.ingredients.Some? {
      var dropped := revised.(amounts := RowsNotOf(revised.amounts, id));
      DropRowsKept(revised, dropped, id, nextRecipe, start);
      if saved {
        BulkInsertKept(dropped, after, nextRecipe, id, q.ingredients.value, start);
      }
    }
  }

  lemma ReplaceTwice<K, V>(m: map<K, V>, k: K, v: V, w: V)
    ensures m[k := v][k := w] == m[k := w]
  {
  }

  /**
   * The database as `WriteRecipeSerializer` sees it. The serializer writes
   * only the recipe table (with its tag relation) and the amount table, so
   * the other tables are fixed for the lifetime of the object.
   */
  class Store {
    const users: map<UserId, User>
    const subscriptions: map<RowId, Subscription>
    const tags: map<TagId, Tag>
    const ingredients: map<IngredientId, Ingredient>
    var recipes: map<RecipeId, Recipe>
    var amounts: map<RowId, AmountRow>
    const favorites: map<RowId, UserRecipe>
    const carts: map<RowId, UserRecipe>
    /** The next primary key of the recipe table and of the amount table. */
    var nextRecipeId: RecipeId
    var nextRowId: RowId

    /** The tables as one value. */
    function Snapshot(): Db
      reads this
    {
      Db(users, subscriptions, tags, ingredients, recipes, amounts, favorites, carts)
    }

    /** Every declared constraint holds and every key in use lies below its counter. */
    ghost predicate Valid()
      reads this
    {
      Stored(Snapshot(), nextRecipeId, nextRowId)
    }

    constructor (db: Db, nextRecipe: RecipeId, nextRow: RowId)
      requires Recipes.Valid(db)
      requires forall x :: x in db.recipes ==> x < nextRecipe
      requires forall k :: k in db.amounts ==> k < nextRow
      ensures Snapshot() == db && nextRecipeId == nextRecipe && nextRowId == nextRow
      ensures Valid()
    {
      users, subscriptions, tags, ingredients := db.users, db.subscriptions, db.tags, db.ingredients;
      recipes, amounts, favorites, carts := db.recipes, db.amounts, db.favorites, db.carts;
      nextRecipeId, nextRowId := nextRecipe, nextRow;
    }

    /**
     * `RecipeIngredientAmount.objects.bulk_create` for a recipe that has no
     * rows: the database takes all the rows, under consecutive keys, or,
     * when an ingredient foreign key or `unique_recipe_ingredient` would
     * break, none of them.
     */
    method BulkCreate(recipe: RecipeId, entries: seq<IngredientEntry>) returns (saved: bool)
      requires recipe in recipes
      requires forall k :: k in amounts ==> amounts[k].recipe != recipe
      modifies this`amounts, this`nextRowId
      ensures saved <==> EntriesInsertable(ingredients, entries)
      ensures saved ==> amounts == old(amounts) + NewRows(recipe, entries, old(nextRowId))
      ensures saved ==> nextRowId == old(nextRowId) + |entries|
      ensures !saved ==> amounts == old(amounts) && nextRowId == old(nextRowId)
    {
      if !EntriesInsertable(ingredients, entries) {
        return false;
      }
      amounts := amounts + NewRows(recipe, entries, nextRowId);
      nextRowId := nextRowId + |entries|;
      return true;
    }

    /** `recipe.tags.set(ts)`; `tags.clear()` is the call with no tags. */
    method SetTags(id: RecipeId, ts: seq<TagId>)
      requires id in recipes
      modifies this`recipes
      ensures recipes == old(recipes)[id := old(recipes)[id].(tags := TagSet(ts))]
    {
      recipes := recipes[id := recipes[id].(tags := TagSet(ts))];
    }

    /**
     * `create`: the recipe row is inserted under the next key, its tags are
     * set, and then its amount rows are bulk-inserted. No transaction is
     * visible, so when the insert is refused the recipe stays, tagged, with
     * no ingredients.
     */
    method Create(author: UserId, p: RecipePayload, now: nat) returns (id: RecipeId, saved: bool)
      requires Valid()
      requires author in users && Accepted(Snapshot(), p)
      modifies this`recipes, this`nextRecipeId, this`amounts, this`nextRowId
      ensures Valid()
      ensures id == old(nextRecipeId) && id !in old(recipes)
      ensures recipes == old(recipes)[id := Recipe(author, p.name, p.image, p.text, TagSet(p.tags), p.cookingTime, now)]
      ensures saved <==> EntriesInsertable(ingredients, p.ingredients)
      ensures amounts == if saved then old(amounts) + NewRows(id, p.ingredients, old(nextRowId)) else old(amounts)
      ensures nextRecipeId == id + 1
      ensures nextRowId == if saved then old(nextRowId) + |p.ingredients| else old(nextRowId)
    {
      ghost var before := Snapshot();
      var r := Recipe(author, p.name, p.image, p.text, {}, p.cookingTime, now);
      id := nextRecipeId;
      NoRowsAbove(before, id, nextRowId, id);
      recipes := recipes[id := r];
      nextRecipeId := id + 1;
      SetTags(id, p.tags);
      ReplaceTwice(old(recipes), id, r, r.(tags := TagSet(p.tags)));
      saved := BulkCreate(id, p.ingredients);
      CreateKept(before, Snapshot(), r.(tags := TagSet(p.tags)), p, id, saved, old(nextRowId), nextRecipeId, nextRowId);
    }

    /** The tag step of `update`: with a `tags` key, `tags.clear()` and then `tags.set(...)`. */
    method Retag(id: RecipeId, ts: Option<seq<TagId>>)
      requires id in recipes
      modifies this`recipes
      ensures ts.None? ==> recipes == old(recipes)
      ensures ts.Some? ==> recipes == old(recipes)[id := old(recipes)[id].(tags := TagSet(ts.value))]
    {
      if ts.Some? {
        ghost var original := recipes[id];
        SetTags(id, []);
        SetTags(id, ts.value);
        ReplaceTwice(old(recipes), id, original.(tags := TagSet([])), original.(tags := TagSet(ts.value)));
      }
    }

    /**
     * The ingredient step of `update`: with an `ingredients` key, every
     * amount row of the recipe is deleted and the new ones bulk-inserted.
     */
    method ReplaceIngredients(id: RecipeId, entries: Option<seq<IngredientEntry>>) returns (saved: bool)
      requires id in recipes
      modifies this`amounts, this`nextRowId
      ensures entries.None? ==> saved && amounts == old(amounts) && nextRowId == old(nextRowId)
      ensures entries.Some? ==> (saved <==> EntriesInsertable(ingredients, entries.value))
      ensures entries.Some? && saved ==>
        amounts == RowsNotOf(old(amounts), id) + NewRows(id, entries.value, old(nextRowId)) && nextRowId == old(nextRowId) + |entries.value|
      ensures entries.Some? && !saved ==> amounts == RowsNotOf(old(amounts), id) && nextRowId == old(nextRowId)
    {
      saved := true;
      if entries.Some? {
        amounts := RowsNotOf(amounts, id);
        saved := BulkCreate(id, entries.value);
      }
    }

    /**
     * `update`: a `tags` key clears and then sets the tag set; an
     * `ingredients` key deletes every amount row of the recipe and
     * bulk-inserts the new ones; the remaining fields are written last, and
     * not at all when the insert is refused.
     */
    method Update(id: RecipeId, q: RecipePatch) returns (saved: bool)
      requires Valid()
      requires id in recipes && PatchAccepted(Snapshot(), q)
      modifies this`recipes, this`amounts, this`nextRowId
      ensures Valid()
      ensures recipes == old(recipes)[id := Revised(old(recipes)[id], q, saved)]
      ensures q.ingredients.None? ==> saved && amounts == old(amounts)
      ensures q.ingredients.Some? ==> (saved <==> EntriesInsertable(ingredients, q.ingredients.value))
      ensures q.ingredients.Some? ==>
        amounts == if saved then RowsNotOf(old(amounts), id) + NewRows(id, q.ingredients.value, old(nextRowId)) else RowsNotOf(old(amounts), id)
      ensures nextRowId == if q.ingredients.Some? && saved then old(nextRowId) + |q.ingredients.value| else old(nextRowId)
    {
      ghost var before := Snapshot();
      Retag(id, q.tags);
      ghost var tagged := recipes;
      saved := ReplaceIngredients(id, q.ingredients);
      if saved {
        recipes := recipes[id := Patched(recipes[id], q)];
        ReplaceTwice(old(recipes), id, tagged[id], Patched(tagged[id], q));
      }
      UpdateKept(before, Snapshot(), id, q, saved, amounts, nextRecipeId, old(nextRowId), nextRowId);
    }
  }
}
