/** The recipe service: `findAll`, `addRecipe` and `deleteRecipe` over a map from
    id to recipe. Replies carry the recipe row only: the store returns scalar
    columns unless relations are asked for, and the service never asks. */
module RecipeService {
  import opened Common

  datatype Photo = Photo(url: string)
  datatype Ingredient = Ingredient(name: string, amount: string)
  datatype Instruction = Instruction(order: int, description: string)

  /** The body of `POST recipe`; a child list may be missing altogether. */
  datatype RecipeDto = RecipeDto(
    name: string, time: int, category: string, nationality: string, difficulty: string,
    description: string, meal: string,
    gallery: Option<seq<Photo>>, ingredients: Option<seq<Ingredient>>, steps: Option<seq<Instruction>>)

  /** The scalar columns of a recipe. */
  datatype RecipeRow = RecipeRow(
    name: string, time: int, image: string, icon: string, category: string,
    nationality: string, difficulty: string, meal: string, description: string)

  /** A stored recipe with its child rows, in creation order. */
  datatype Recipe = Recipe(row: RecipeRow, gallery: seq<Photo>, ingredients: seq<Ingredient>, steps: seq<Instruction>)

  datatype Cookbook = Cookbook(recipes: map<int, Recipe>, nextId: nat)

  /** Ids as the autoincrement key assigns them. */
  predicate Valid(c: Cookbook) {
    forall id :: id in c.recipes ==> 0 <= id < c.nextId
  }

  datatype RecipeReply =
    | Listing(message: string, data: map<int, RecipeRow>)
    | Created(message: string, id: nat, recipe: RecipeRow)
    | Done(message: string)

  const DefaultImage := "https://default.com/image.png"
  const DefaultIcon := "https://default.com/icon.png"

  /** The first gallery photo has a URL that `||` keeps (a non-empty one). */
  predicate HasCover(gallery: Option<seq<Photo>>) {
    gallery.Some? && |gallery.value| > 0 && gallery.value[0].url != ""
  }

  /** `dto.gallery?.[0]?.url || fallback`. */
  function CoverOr(gallery: Option<seq<Photo>>, fallback: string): string {
    if HasCover(gallery) then gallery.value[0].url else fallback
  }

  /** The record `addRecipe` creates: scalar fields copied, image and icon from the
      first photo or the defaults, and a missing child list stored as empty. */
  function FromDto(dto: RecipeDto): Recipe {
    Recipe(
      RecipeRow(dto.name, dto.time, CoverOr(dto.gallery, DefaultImage), CoverOr(dto.gallery, DefaultIcon),
                dto.category, dto.nationality, dto.difficulty, dto.meal, dto.description),
      dto.gallery.GetOr([]), dto.ingredients.GetOr([]), dto.steps.GetOr([]))
  }

  /** The duplicate check on (name, category, difficulty). */
  predicate Listed(c: Cookbook, dto: RecipeDto) {
    exists id :: id in c.recipes && c.recipes[id].row.name == dto.name
                 && c.recipes[id].row.category == dto.category
                 && c.recipes[id].row.difficulty == dto.difficulty
  }

  /** `findAll()`: every error, a store failure included, propagates unchanged. */
  function FindAll(c: Cookbook, fault: Fault): (r: Result<RecipeReply>)
    ensures Crashes(fault, Lookup) ==> r == Err(Unexpected)
    ensures !Crashes(fault, Lookup) && |c.recipes| == 0 ==> r == Err(Http(NotFound("Recipes Not Found!")))
    ensures r.Ok? <==> !Crashes(fault, Lookup) && |c.recipes| > 0
    ensures r.Ok? ==> r.value.Listing? && r.value.message == "ok"
    ensures r.Ok? ==> r.value.data.Keys == c.recipes.Keys
    ensures r.Ok? ==> forall id :: id in r.value.data ==> r.value.data[id] == c.recipes[id].row
  {
    if Crashes(fault, Lookup) then Err(Unexpected)
    else if |c.recipes| == 0 then Err(Http(NotFound("Recipes Not Found!")))
    else Ok(Listing("ok", map id | id in c.recipes :: c.recipes[id].row))
  }

  /** `addRecipe(dto)`: BadRequest is rethrown, anything else becomes an internal error. */
  function AddRecipe(c: Cookbook, dto: RecipeDto, fault: Fault): (t: Transition<RecipeReply, Cookbook>)
    ensures t.result.Err? ==> t.result.thrown.Http?
    ensures t.result.Err? ==> t.result.thrown.error in {BadRequest("Recipe already exists!"),
                                                        InternalServerError("Internal Server Error")}
    ensures t.result.Err? ==> t.state == c
    ensures !Crashes(fault, Lookup) && Listed(c, dto) ==>
              t == Transition(Err(Http(BadRequest("Recipe already exists!"))), c)
    ensures Crashes(fault, Lookup) ==> t == Transition(Err(Http(InternalServerError("Internal Server Error"))), c)
    ensures !Listed(c, dto) && Crashes(fault, Write) ==>
              t == Transition(Err(Http(InternalServerError("Internal Server Error"))), c)
    ensures t.result.Ok? <==> !Crashes(fault, Lookup) && !Listed(c, dto) && !Crashes(fault, Write)
    ensures t.result.Ok? ==>
              && t.state.nextId == c.nextId + 1
              && t.state.recipes.Keys == c.recipes.Keys + {c.nextId}
              && (forall k :: k in c.recipes && k != c.nextId ==> t.state.recipes[k] == c.recipes[k])
    ensures t.result.Ok? ==>
              var r := t.state.recipes[c.nextId];
              && r.row.name == dto.name && r.row.time == dto.time && r.row.category == dto.category
              && r.row.nationality == dto.nationality && r.row.difficulty == dto.difficulty
              && r.row.meal == dto.meal && r.row.description == dto.description
              && (HasCover(dto.gallery) ==> r.row.image == dto.gallery.value[0].url == r.row.icon)
              && (!HasCover(dto.gallery) ==> r.row.image == DefaultImage && r.row.icon == DefaultIcon)
              && |r.gallery| == (if dto.gallery.Some? then |dto.gallery.value| else 0)
              && (forall i :: 0 <= i < |r.gallery| ==> r.gallery[i] == dto.gallery.value[i])
              && |r.ingredients| == (if dto.ingredients.Some? then |dto.ingredients.value| else 0)
              && (forall i :: 0 <= i < |r.ingredients| ==> r.ingredients[i] == dto.ingredients.value[i])
              && |r.steps| == (if dto.steps.Some? then |dto.steps.value| else 0)
              && (forall i :: 0 <= i < |r.steps| ==> r.steps[i] == dto.steps.value[i])
              && t.result.value == Created("Recipe created", c.nextId, r.row)
  {
    var body: Transition<RecipeReply, Cookbook> :=
      if Crashes(fault, Lookup) then Transition(Err(Unexpected), c)
      else if Listed(c, dto) then Transition(Err(Http(BadRequest("Recipe already exists!"))), c)
      else if Crashes(fault, Write) then Transition(Err(Unexpected), c)
      else
        var r := FromDto(dto);
        Transition(Ok(Created("Recipe created", c.nextId, r.row)),
                   Cookbook(c.recipes[c.nextId := r], c.nextId + 1));
    Transition(Catch(body.result, (e: HttpError) => e.BadRequest?, "Internal Server Error"), body.state)
  }

  /** `deleteRecipe(recipeId)`: NotFound is rethrown, anything else becomes an internal error. */
  function DeleteRecipe(c: Cookbook, recipeId: int, fault: Fault): (t: Transition<RecipeReply, Cookbook>)
    ensures t.result.Err? ==> t.result.thrown.Http?
    ensures t.result.Err? ==> t.result.thrown.error in {NotFound("This Recipe Not Found"),
                                                        InternalServerError("Internal Server Exception!")}
    ensures t.result.Err? ==> t.state == c
    ensures !Crashes(fault, Lookup) && recipeId !in c.recipes ==>
              t == Transition(Err(Http(NotFound("This Recipe Not Found"))), c)
    ensures Crashes(fault, Lookup) ==> t == Transition(Err(Http(InternalServerError("Internal Server Exception!"))), c)
    ensures recipeId in c.recipes && Crashes(fault, Write) ==>
              t == Transition(Err(Http(InternalServerError("Internal Server Exception!"))), c)
    ensures t.result.Ok? <==> !Crashes(fault, Lookup) && recipeId in c.recipes && !Crashes(fault, Write)
    ensures t.result.Ok? ==>
              && t.result.value == Done("Ok")
              && t.state.nextId == c.nextId
              && t.state.recipes.Keys == c.recipes.Keys - {recipeId}
              && forall k :: k in t.state.recipes ==> t.state.recipes[k] == c.recipes[k]
  {
    var body: Transition<RecipeReply, Cookbook> :=
      if Crashes(fault, Lookup) then Transition(Err(Unexpected), c)
      else if recipeId !in c.recipes then Transition(Err(Http(NotFound("This Recipe Not Found"))), c)
      else if Crashes(fault, Write) then Transition(Err(Unexpected), c)
      else Transition(Ok(Done("Ok")), c.(recipes := c.recipes - {recipeId}));
    Transition(Catch(body.result, (e: HttpError) => e.NotFound?, "Internal Server Exception!"), body.state)
  }

  /** A missing child list and an empty one create the same recipe. */
  lemma MissingListsAreEmpty(c: Cookbook, dto: RecipeDto, fault: Fault)
    requires dto.ingredients.None? && dto.steps.None?
    ensures AddRecipe(c, dto, fault) == AddRecipe(c, dto.(ingredients := Some([]), steps := Some([])), fault)
  {
  }

  /** Adding the same recipe twice: the second add is refused and changes nothing. */
  lemma AddTwiceRejected(c: Cookbook, dto: RecipeDto, fault: Fault)
    requires AddRecipe(c, dto, None).result.Ok?
    requires !Crashes(fault, Lookup)
    ensures var c' := AddRecipe(c, dto, None).state;
            AddRecipe(c', dto, fault) == Transition(Err(Http(BadRequest("Recipe already exists!"))), c')
  {
  }

  /** On a valid cookbook a successful add grows it by exactly one recipe, which the
      listing then shows and which deleting removes again. */
  lemma AddThenFindAllThenDelete(c: Cookbook, dto: RecipeDto)
    requires Valid(c)
    requires AddRecipe(c, dto, None).result.Ok?
    ensures var c' := AddRecipe(c, dto, None).state;
            && Valid(c')
            && |c'.recipes| == |c.recipes| + 1
            && FindAll(c', None).Ok?
            && FindAll(c', None).value.data[c.nextId] == AddRecipe(c, dto, None).result.value.recipe
            && DeleteRecipe(c', c.nextId, None) == Transition(Ok(Done("Ok")), c'.(recipes := c.recipes))
  {
    var c' := AddRecipe(c, dto, None).state;
    assert c.nextId !in c.recipes;
    assert c'.recipes - {c.nextId} == c.recipes;
  }

  /** Deleting is not repeatable: a second delete of the same id finds nothing. */
  lemma DeleteTwiceNotFound(c: Cookbook, recipeId: int, fault: Fault)
    requires DeleteRecipe(c, recipeId, None).result.Ok?
    requires !Crashes(fault, Lookup)
    ensures var c' := DeleteRecipe(c, recipeId, None).state;
            DeleteRecipe(c', recipeId, fault) == Transition(Err(Http(NotFound("This Recipe Not Found"))), c')
  {
  }

  /** A negative id names no recipe of a valid cookbook and is answered with NotFound. */
  lemma NegativeIdNotFound(c: Cookbook, recipeId: int, fault: Fault)
    requires Valid(c) && recipeId < 0 && !Crashes(fault, Lookup)
    ensures DeleteRecipe(c, recipeId, fault) == Transition(Err(Http(NotFound("This Recipe Not Found"))), c)
  {
  }

  /** Every operation keeps the ids valid. */
  lemma OperationsKeepValid(c: Cookbook, dto: RecipeDto, recipeId: int, fault: Fault)
    requires Valid(c)
    ensures Valid(AddRecipe(c, dto, fault).state)
    ensures Valid(DeleteRecipe(c, recipeId, fault).state)
  {
  }
}
