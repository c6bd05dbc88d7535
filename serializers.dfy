/**
 * The write side of backend/api/serializers.py and its remaining read-side
 * getter: the duplicate and empty-list checks of WriteRecipeSerializer, the
 * field bounds, recipe create and update against the store, the two checks of
 * SubscriptionSerializer.validate, and CustomUserSerializer.get_is_subscribed.
 */
module Serializers {

  import opened Wrappers
  import opened Sequences
  import opened Constants
  import opened Users
  import opened Recipes
  import opened CustomSerializers

  // ---------------------------------------------------------------------------
  // Validation errors

  /** The error messages the serializers raise, and the framework's own two. */
  datatype Message =
    | ChooseSomething          // empty_field
    | NoIngredients            // validate_ingredients, empty list
    | IngredientAlreadyAdded   // validate_ingredients, repeated entry
    | AddAtLeastOneTag         // validate_tags, empty list
    | TagAlreadyChosen         // validate_tags, repeated tag
    | OutOfRange               // an IntegerField bound
    | DoesNotExist             // a primary key that names no row

  /** One entry of a ValidationError detail: the key and its message. */
  datatype FieldError = FieldError(key: string, message: Message)

  /** One validated entry of the `ingredients` list: the pair {id, amount}. */
  datatype IngredientEntry = IngredientEntry(id: int, amount: int)

  /**
   * `empty_field`: an empty list is refused. The walrus rebinds `field` to
   * the value, and the key of the error is the literal text "{field}" (the
   * string has no f prefix), whatever field is being checked.
   */
  function EmptyField<T>(field: string, value: seq<T>): (r: Result<seq<T>, FieldError>)
    ensures r.Ok? <==> |value| > 0
    ensures r.Ok? ==> r.value == value
    ensures r.Err? ==> r.error == FieldError("{field}", ChooseSomething)
  {
    if |value| > 0 then Ok(value) else Err(FieldError("{field}", ChooseSomething))
  }

  /**
   * The scan both validators run: walk the list, keeping the items seen so
   * far, and stop at the first item already among them.
   */
  method FindRepeat<T(==)>(items: seq<T>) returns (repeated: bool)
    ensures repeated <==> !Distinct(items)
  {
    var seen: seq<T> := [];
    var i := 0;
    while i < |items|
      invariant 0 <= i <= |items|
      invariant seen == items[..i]
      invariant Distinct(seen)
    {
      if items[i] in seen {
        var j :| 0 <= j < i && seen[j] == items[i];
        assert items[j] == items[i];
        return true;
      }
      seen := seen + [items[i]];
      i := i + 1;
    }
    assert seen == items;
    return false;
  }

  /**
   * `validate_ingredients`: an empty list fails inside `empty_field`, so
   * the "no ingredients" branch is never reached; a list in which some
   * whole {id, amount} entry occurs twice is refused; any other list is
   * returned unchanged. Entries that share an id but not an amount pass.
   */
  method ValidateIngredients(value: seq<IngredientEntry>) returns (r: Result<seq<IngredientEntry>, FieldError>)
    ensures |value| == 0 ==> r == Err(FieldError("{field}", ChooseSomething))
    ensures |value| > 0 && !Distinct(value) ==> r == Err(FieldError("ingredients", IngredientAlreadyAdded))
    ensures r.Ok? <==> |value| > 0 && Distinct(value)
    ensures r.Ok? ==> r.value == value
    ensures r != Err(FieldError("ingredients", NoIngredients))
  {
    var checked := EmptyField("ingredients", value);
    if checked.Err? {
      return Err(checked.error);
    }
    var ingredients := checked.value;
    if |ingredients| == 0 {
      assert false;
      return Err(FieldError("ingredients", NoIngredients));
    }
    var repeated := FindRepeat(ingredients);
    if repeated {
      return Err(FieldError("ingredients", IngredientAlreadyAdded));
    }
    return Ok(value);
  }

  /**
   * `validate_tags`: an empty list fails inside `empty_field`, so the "at
   * least one tag" branch is never reached; a list naming a tag twice is
   * refused; any other list is returned unchanged.
   */
  method ValidateTags(value: seq<TagId>) returns (r: Result<seq<TagId>, FieldError>)
    ensures |value| == 0 ==> r == Err(FieldError("{field}", ChooseSomething))
    ensures |value| > 0 && !Distinct(value) ==> r == Err(FieldError("tags", TagAlreadyChosen))
    ensures r.Ok? <==> |value| > 0 && Distinct(value)
    ensures r.Ok? ==> r.value == value
    ensures r != Err(FieldError("tags", AddAtLeastOneTag))
  {
    var checked := EmptyField("tags", value);
    if checked.Err? {
      return Err(checked.error);
    }
    var tags := checked.value;
    if |tags| == 0 {
      assert false;
      return Err(FieldError("tags", AddAtLeastOneTag));
    }
    var repeated := FindRepeat(tags);
    if repeated {
      return Err(FieldError("tags", TagAlreadyChosen));
    }
    return Ok(value);
  }

  // ---------------------------------------------------------------------------
  // The whole write payload

  /** The fields of a recipe write request after their own parsing. */
  datatype RecipePayload = RecipePayload(
    ingredients: seq<IngredientEntry>,
    tags: seq<TagId>,
    name: string,
    image: string,
    text: string,
    cookingTime: int)

  /** What the `ingredients` field lets through: amounts in bounds, then `validate_ingredients`. */
  ghost predicate IngredientsAccepted(entries: seq<IngredientEntry>) {
    && (forall e :: e in entries ==> InAmountRange(e.amount))
    && |entries| > 0
    && Distinct(entries)
  }

  /** What the `tags` field lets through: existing tags, then `validate_tags`. */
  ghost predicate TagsAccepted(db: Db, tags: seq<TagId>) {
    && (forall t :: t in tags ==> t in db.tags)
    && |tags| > 0
    && Distinct(tags)
  }

  /** Every field of a payload passes validation. */
  ghost predicate Accepted(db: Db, p: RecipePayload) {
    && IngredientsAccepted(p.ingredients)
    && TagsAccepted(db, p.tags)
    && InCookingTimeRange(p.cookingTime)
  }

  /**
   * Validation of a whole payload: each field is checked by its own
   * validators and, when they pass, by its `validate_<field>` method; the
   * errors are collected under the field names.
   */
  method ValidateWrite(db: Db, p: RecipePayload) returns (errors: map<string, FieldError>)
    ensures errors.Keys <= {"ingredients", "tags", "cooking_time"}
    ensures "ingredients" in errors <==> !IngredientsAccepted(p.ingredients)
    ensures "tags" in errors <==> !TagsAccepted(db, p.tags)
    ensures "cooking_time" in errors <==> !InCookingTimeRange(p.cookingTime)
    ensures |p.ingredients| == 0 ==> errors["ingredients"] == FieldError("{field}", ChooseSomething)
    ensures |p.tags| == 0 ==> errors["tags"] == FieldError("{field}", ChooseSomething)
    ensures errors == map[] <==> Accepted(db, p)
  {
    errors := map[];
    if exists e :: e in p.ingredients && !InAmountRange(e.amount) {
      errors := errors["ingredients" := FieldError("amount", OutOfRange)];
    } else {
      var r := ValidateIngredients(p.ingredients);
      if r.Err? {
        errors := errors["ingredients" := r.error];
      }
    }
    if exists t :: t in p.tags && t !in db.tags {
      errors := errors["tags" := FieldError("tags", DoesNotExist)];
    } else {
      var r := ValidateTags(p.tags);
      if r.Err? {
        errors := errors["tags" := r.error];
      }
    }
    if !InCookingTimeRange(p.cookingTime) {
      errors := errors["cooking_time" := FieldError("cooking_time", OutOfRange)];
    }
    assert errors == map[] <==> "ingredients" !in errors && "tags" !in errors && "cooking_time" !in errors;
  }

  // ---------------------------------------------------------------------------
  // What bulk_create needs, and what it writes

  /**
   * The database accepts the rows of `entries` for a recipe that has no rows
   * yet exactly when every id names an ingredient (the foreign key) and no id
   * occurs twice (`unique_recipe_ingredient`).
   */
  predicate EntriesInsertable(ingredients: map<IngredientId, Ingredient>, entries: seq<IngredientEntry>) {
    && (forall e :: e in entries ==> e.id >= 0 && e.id in ingredients)
    && (forall i, j :: 0 <= i < j < |entries| ==> entries[i].id != entries[j].id)
  }

  /** The row one entry becomes. */
  function EntryRow(recipe: RecipeId, e: IngredientEntry): AmountRow
    requires e.id >= 0
  {
    AmountRow(recipe, e.id as nat, e.amount)
  }

  /** The rows one bulk insert adds, numbered from `start` in list order. */
  function NewRows(recipe: RecipeId, entries: seq<IngredientEntry>, start: RowId): map<RowId, AmountRow>
    requires forall e :: e in entries ==> e.id >= 0
  {
    map j | j in RowRange(start, |entries|) :: EntryRow(recipe, entries[j - start])
  }

  /** The insert takes the keys from `start` on, one per entry, and key `start + i` holds entry i's row. */
  lemma NewRowsShape(recipe: RecipeId, entries: seq<IngredientEntry>, start: RowId)
    requires forall e :: e in entries ==> e.id >= 0
    ensures NewRows(recipe, entries, start).Keys == RowRange(start, |entries|)
    ensures forall j :: j in NewRows(recipe, entries, start) ==>
      entries[j - start] in entries && NewRows(recipe, entries, start)[j] == EntryRow(recipe, entries[j - start])
  {
  }

  /** The ingredient join each entry should read back as. */
  function EntryViews(ingredients: map<IngredientId, Ingredient>, entries: seq<IngredientEntry>): set<IngredientView>
    requires forall e :: e in entries ==> e.id >= 0 && e.id in ingredients
  {
    set e | e in entries :: IngredientView(e.id as nat, ingredients[e.id].name, ingredients[e.id].measurementUnit, e.amount)
  }

  /** The preconditions under which a bulk insert keeps every constraint. */
  ghost predicate InsertFits(db: Db, recipe: RecipeId, entries: seq<IngredientEntry>, start: RowId) {
    && Valid(db)
    && recipe in db.recipes
    && (forall k :: k in db.amounts ==> k < start && db.amounts[k].recipe != recipe)
    && (forall e :: e in entries ==> InAmountRange(e.amount))
    && EntriesInsertable(db.ingredients, entries)
  }

  lemma InsertRowsKeepsValid(db: Db, recipe: RecipeId, entries: seq<IngredientEntry>, start: RowId)
    requires InsertFits(db, recipe, entries, start)
    ensures Valid(db.(amounts := db.amounts + NewRows(recipe, entries, start)))
  {
    var amounts := db.amounts + NewRows(recipe, entries, start);
    assert AmountsValid(db);
    AddedRowsFit(db.recipes, db.ingredients, db.amounts, recipe, entries, start, amounts);
    AmountsOnlyChanged(db, amounts);
  }

  /** The amount-table constraints, stated on the tables alone, survive the insert. */
  lemma AddedRowsFit(recipes: map<RecipeId, Recipe>, ingredients: map<IngredientId, Ingredient>,
                     before: map<RowId, AmountRow>, recipe: RecipeId, entries: seq<IngredientEntry>, start: RowId,
                     amounts: map<RowId, AmountRow>)
    requires recipe in recipes
    requires forall k :: k in before ==> k < start && before[k].recipe != recipe
    requires forall k :: k in before ==>
      && before[k].recipe in recipes && before[k].ingredient in ingredients && InAmountRange(before[k].amount)
    requires forall k1, k2 :: k1 in before && k2 in before && k1 != k2 ==>
      before[k1].recipe != before[k2].recipe || before[k1].ingredient != before[k2].ingredient
    requires forall e :: e in entries ==> InAmountRange(e.amount)
    requires EntriesInsertable(ingredients, entries)
    requires amounts == before + NewRows(recipe, entries, start)
    ensures forall k :: k in amounts ==>
      && amounts[k].recipe in recipes && amounts[k].ingredient in ingredients && InAmountRange(amounts[k].amount)
    ensures forall k1, k2 :: k1 in amounts && k2 in amounts && k1 != k2 ==>
      amounts[k1].recipe != amounts[k2].recipe || amounts[k1].ingredient != amounts[k2].ingredient
  {
    var added := NewRows(recipe, entries, start);
    NewRowsShape(recipe, entries, start);
    forall k | k in amounts
      ensures amounts[k].recipe in recipes && amounts[k].ingredient in ingredients && InAmountRange(amounts[k].amount)
    {
      if k in added {
        assert amounts[k] == added[k];
        assert entries[k - start] in entries;
      } else {
        assert amounts[k] == before[k];
      }
    }
    forall k1, k2 | k1 in amounts && k2 in amounts && k1 != k2
      ensures amounts[k1].recipe != amounts[k2].recipe || amounts[k1].ingredient != amounts[k2].ingredient
    {
      if k1 in added && k2 in added {
        AddedRowsDistinct(ingredients, recipe, entries, start, k1, k2);
      } else if k1 in added {
        assert amounts[k1].recipe == recipe && amounts[k2] == before[k2];
      } else if k2 in added {
        assert amounts[k2].recipe == recipe && amounts[k1] == before[k1];
      } else {
        assert amounts[k1] == before[k1] && amounts[k2] == before[k2];
      }
    }
  }

  /** Two rows of one insert name different ingredients. */
  lemma AddedRowsDistinct(ingredients: map<IngredientId, Ingredient>, recipe: RecipeId,
                          entries: seq<IngredientEntry>, start: RowId, k1: RowId, k2: RowId)
    requires EntriesInsertable(ingredients, entries)
    requires k1 in NewRows(recipe, entries, start) && k2 in NewRows(recipe, entries, start) && k1 != k2
    ensures NewRows(recipe, entries, start)[k1].ingredient != NewRows(recipe, entries, start)[k2].ingredient
  {
    NewRowsShape(recipe, entries, start);
    var i1, i2 := k1 - start, k2 - start;
    if i1 < i2 {
      assert entries[i1].id != entries[i2].id;
    } else {
      assert entries[i2].id != entries[i1].id;
    }
  }

  /** Replacing the amount table keeps the store valid when the new table obeys its own constraints. */
  lemma AmountsOnlyChanged(db: Db, amounts: map<RowId, AmountRow>)
    requires Valid(db)
    requires forall k :: k in amounts ==>
      && amounts[k].recipe in db.recipes && amounts[k].ingredient in db.ingredients && InAmountRange(amounts[k].amount)
    requires forall k1, k2 :: k1 in amounts && k2 in amounts && k1 != k2 ==>
      amounts[k1].recipe != amounts[k2].recipe || amounts[k1].ingredient != amounts[k2].ingredient
    ensures Valid(db.(amounts := amounts))
  {
    var after := db.(amounts := amounts);
    assert AmountsValid(after);
    assert RecipesValid(after) by { assert RecipesValid(db); }
    assert UserRecipesValid(after, after.favorites) by { assert UserRecipesValid(db, db.favorites); }
    assert UserRecipesValid(after, after.carts) by { assert UserRecipesValid(db, db.carts); }
  }

  /** The row keys `start`, ..., `start + n - 1` one bulk insert takes. */
  function RowRange(start: RowId, n: nat): (r: set<RowId>)
    ensures forall j :: j in r <==> start <= j < start + n
    ensures |r| == n
  {
    if n == 0 then {} else RowRange(start, n - 1) + {start + n - 1}
  }

  /**
   * Round trip: after a bulk insert the ingredient join of the recipe reads
   * back exactly the entries, one view per entry.
   */
  lemma ReadBackAfterInsert(db: Db, recipe: RecipeId, entries: seq<IngredientEntry>, start: RowId)
    requires InsertFits(db, recipe, entries, start)
    ensures Valid(db.(amounts := db.amounts + NewRows(recipe, entries, start)))
    ensures var after := db.(amounts := db.amounts + NewRows(recipe, entries, start));
      && GetIngredients(after, recipe) == EntryViews(db.ingredients, entries)
      && |GetIngredients(after, recipe)| == |entries|
  {
    InsertRowsKeepsValid(db, recipe, entries, start);
    NewRowsShape(recipe, entries, start);
    RowsOfAfterInsert(db.amounts, recipe, entries, start);
    ViewsOfInserted(db.(amounts := db.amounts + NewRows(recipe, entries, start)), recipe, entries, start);
  }

  lemma ViewsOfInserted(after: Db, recipe: RecipeId, entries: seq<IngredientEntry>, start: RowId)
    requires forall e :: e in entries ==> e.id >= 0 && e.id in after.ingredients
    requires forall k :: k in NewRows(recipe, entries, start) ==>
      k in after.amounts && after.amounts[k] == NewRows(recipe, entries, start)[k]
    ensures ViewsOf(after, NewRows(recipe, entries, start).Keys) == EntryViews(after.ingredients, entries)
  {
    var added := NewRows(recipe, entries, start);
    NewRowsShape(recipe, entries, start);
    var got := ViewsOf(after, added.Keys);
    var want := EntryViews(after.ingredients, entries);
    forall v | v in got
      ensures v in want
    {
      var k :| k in added && v == View(after, after.amounts[k]);
      var e := entries[k - start];
      assert after.amounts[k] == added[k];
      assert v == IngredientView(e.id as nat, after.ingredients[e.id].name, after.ingredients[e.id].measurementUnit, e.amount);
    }
    forall v | v in want
      ensures v in got
    {
      var e :| e in entries && v == IngredientView(e.id as nat, after.ingredients[e.id].name, after.ingredients[e.id].measurementUnit, e.amount);
      var i :| 0 <= i < |entries| && entries[i] == e;
      assert start + i in added;
      assert after.amounts[start + i] == added[start + i];
      assert v == View(after, after.amounts[start + i]);
    }
  }

  /** The recipe's rows after the insert are exactly the inserted ones. */
  lemma RowsOfAfterInsert(before: map<RowId, AmountRow>, recipe: RecipeId, entries: seq<IngredientEntry>, start: RowId)
    requires forall e :: e in entries ==> e.id >= 0
    requires forall k :: k in before ==> k < start && before[k].recipe != recipe
    ensures RowsOf(before + NewRows(recipe, entries, start), recipe) == NewRows(recipe, entries, start).Keys
    ensures forall k :: k in NewRows(recipe, entries, start) ==>
      (before + NewRows(recipe, entries, start))[k] == NewRows(recipe, entries, start)[k]
  {
    NewRowsShape(recipe, entries, start);
  }

  // ---------------------------------------------------------------------------
  // The whole-entry duplicate check, and the id check it stands for

  /**
   * The duplicate check compares whole entries: two entries for the same
   * ingredient with different amounts pass validation, and the insert of
   * their rows then breaks `unique_recipe_ingredient`.
   */
  lemma AcceptedEntriesMayCollide(i: IngredientId, ingredients: map<IngredientId, Ingredient>)
    requires MIN_AMOUNT < MAX_AMOUNT
    requires i in ingredients
    ensures var entries := [IngredientEntry(i, MIN_AMOUNT), IngredientEntry(i, MAX_AMOUNT)];
      IngredientsAccepted(entries) && !EntriesInsertable(ingredients, entries)
  {
    var entries := [IngredientEntry(i, MIN_AMOUNT), IngredientEntry(i, MAX_AMOUNT)];
    assert entries[0].id == entries[1].id;
  }

  /** No two entries name the same ingredient. */
  ghost predicate DistinctIds(entries: seq<IngredientEntry>) {
    forall i, j :: 0 <= i < j < |entries| ==> entries[i].id != entries[j].id
  }

  /** The ingredient check refusing a repeated id whatever the amounts. */
  method ValidateIngredientIds(value: seq<IngredientEntry>) returns (r: Result<seq<IngredientEntry>, FieldError>)
    ensures |value| == 0 ==> r == Err(FieldError("{field}", ChooseSomething))
    ensures |value| > 0 && !DistinctIds(value) ==> r == Err(FieldError("ingredients", IngredientAlreadyAdded))
    ensures r.Ok? <==> |value| > 0 && DistinctIds(value)
    ensures r.Ok? ==> r.value == value
  {
    var checked := EmptyField("ingredients", value);
    if checked.Err? {
      return Err(checked.error);
    }
    var ids := seq(|value|, i requires 0 <= i < |value| => value[i].id);
    var repeated := FindRepeat(ids);
    if repeated {
      return Err(FieldError("ingredients", IngredientAlreadyAdded));
    }
    assert DistinctIds(value) by {
      forall i, j | 0 <= i < j < |value|
        ensures value[i].id != value[j].id
      {
        assert ids[i] == value[i].id && ids[j] == value[j].id;
      }
    }
    return Ok(value);
  }

  /**
   * What the id check buys: entries it accepts whose ids all exist are
   * insertable, and they pass the whole-entry check as well.
   */
  lemma IdCheckedEntriesAreInsertable(ingredients: map<IngredientId, Ingredient>, entries: seq<IngredientEntry>)
    requires DistinctIds(entries)
    requires forall e :: e in entries ==> e.id >= 0 && e.id in ingredients
    ensures EntriesInsertable(ingredients, entries)
    ensures Distinct(entries)
  {
    forall i, j | 0 <= i < j < |entries|
      ensures entries[i] != entries[j]
    {
      assert entries[i].id != entries[j].id;
    }
  }

  // ---------------------------------------------------------------------------
  // Subscriptions

  datatype SubscriptionError = SubscribeTwice | SubscribeToSelf

  /**
   * `SubscriptionSerializer.validate`: an existing subscription is reported
   * first, then following oneself; otherwise the data comes back unchanged.
   */
  function ValidateSubscription<D>(db: Db, user: UserId, author: UserId, data: D): (r: Result<D, SubscriptionError>)
    ensures Subscribed(db.subscriptions, user, author) ==> r == Err(SubscribeTwice)
    ensures !Subscribed(db.subscriptions, user, author) && user == author ==> r == Err(SubscribeToSelf)
    ensures r.Ok? <==> !Subscribed(db.subscriptions, user, author) && user != author
    ensures r.Ok? ==> r.value == data
  {
    if Subscribed(db.subscriptions, user, author) then Err(SubscribeTwice)
    else if user == author then Err(SubscribeToSelf)
    else Ok(data)
  }

  /** The row the subscription endpoint saves once validation passes. */
  function Subscribe(db: Db, user: UserId, author: UserId, k: RowId): Db {
    db.(subscriptions := db.subscriptions[k := Subscription(user, author)])
  }

  /**
   * The two checks are exactly the two constraints the new row could break:
   * on a valid store, validation passes if and only if saving the
   * subscription keeps the store valid.
   */
  lemma ValidationMatchesConstraints<D>(db: Db, user: UserId, author: UserId, k: RowId, data: D)
    requires Valid(db)
    requires user in db.users && author in db.users && k !in db.subscriptions
    ensures ValidateSubscription(db, user, author, data).Ok? <==> Valid(Subscribe(db, user, author, k))
  {
    var subs := Subscribe(db, user, author, k).subscriptions;
    if Subscribed(db.subscriptions, user, author) {
      var k' :| k' in db.subscriptions && db.subscriptions[k'] == Subscription(user, author);
      assert k' in subs && k' != k && subs[k'] == subs[k];
    } else if user == author {
      assert subs[k].user == subs[k].author;
    } else {
      assert SubscriptionsValid(db.users, subs) by {
        assert SubscriptionsValid(db.users, db.subscriptions);
      }
      SubscriptionsOnlyChanged(db, subs);
    }
  }

  /** Replacing the subscription table keeps the store valid when the new table obeys its own constraints. */
  lemma SubscriptionsOnlyChanged(db: Db, subs: map<RowId, Subscription>)
    requires Valid(db)
    requires SubscriptionsValid(db.users, subs)
    ensures Valid(db.(subscriptions := subs))
  {
    var after := db.(subscriptions := subs);
    assert RecipesValid(after) by { assert RecipesValid(db); }
    assert AmountsValid(after) by { assert AmountsValid(db); }
    assert UserRecipesValid(after, after.favorites) by { assert UserRecipesValid(db, db.favorites); }
    assert UserRecipesValid(after, after.carts) by { assert UserRecipesValid(db, db.carts); }
  }

  /**
   * `get_is_subscribed`: false for the anonymous user, otherwise whether the
   * caller follows `obj`. The source reads `user.is_anonymous` without first
   * checking that a user is there.
   */
  function IsSubscribed(db: Db, caller: Caller, obj: UserId): (b: bool)
    requires !caller.Absent?
    ensures b <==> caller.Member? && exists k :: k in db.subscriptions && db.subscriptions[k] == Subscription(caller.id, obj)
  {
    if caller.Anonymous? then false else Subscribed(db.subscriptions, caller.id, obj)
  }

  /** Once saved, the subscription shows in `is_subscribed` and a second attempt is refused. */
  lemma SubscribeThenValidateAgain<D>(db: Db, user: UserId, author: UserId, k: RowId, data: D)
    ensures IsSubscribed(Subscribe(db, user, author, k), Member(user), author)
    ensures ValidateSubscription(Subscribe(db, user, author, k), user, author, data) == Err(SubscribeTwice)
  {
    assert Subscribe(db, user, author, k).subscriptions[k] == Subscription(user, author);
  }
}
