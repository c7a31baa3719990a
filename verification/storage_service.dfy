/** The storage (refrigerator) service: per-user material rows kept in a map from
    id to row. Its catch blocks turn the NotFound or BadRequest they expect into an
    error-flagged reply instead of rethrowing; anything else becomes an internal error. */
module StorageService {
  import opened Common

  /** A refrigerator row without its id. */
  datatype Material = Material(name: string, userId: int, amount: int)

  /** The table: rows by id, the next autoincrement id, and the column default of `amount`. */
  datatype Fridge = Fridge(rows: map<int, Material>, nextId: nat, defaultAmount: int)

  /** Ids as the autoincrement key assigns them. */
  predicate Valid(f: Fridge) {
    forall id :: id in f.rows ==> 0 <= id < f.nextId
  }

  /** The body of `POST storage/add`; `kind` is the dto's `type` field. */
  datatype MaterialDto = MaterialDto(name: string, kind: string, count: int)

  datatype StorageReply =
    | Listing(message: string, data: map<int, Material>)
    | Summary(message: string, name: string, amount: int, id: int)
    | Done(message: string)
      /** `{message, data: null, error: true}` */
    | Flagged(message: string)

  const InternalError := InternalServerError("Internal Server Error")

  /** The catch blocks: an HTTP exception accepted by `swallows` becomes a flagged
      reply with `message`, anything else an internal error. */
  function Swallow(r: Result<StorageReply>, swallows: HttpError -> bool, message: string): (c: Result<StorageReply>)
    ensures r.Ok? ==> c == r
    ensures c.Err? ==> c.thrown == Http(InternalError)
    ensures r.Err? && r.thrown.Http? && swallows(r.thrown.error) ==> c == Ok(Flagged(message))
    ensures r.Err? && !(r.thrown.Http? && swallows(r.thrown.error)) ==> c == Err(Http(InternalError))
  {
    match r
    case Ok(_) => r
    case Err(Http(e)) => if swallows(e) then Ok(Flagged(message)) else Err(Http(InternalError))
    case Err(Unexpected) => Err(Http(InternalError))
  }

  /** Only the row under `id` may differ, and no id is added or removed. */
  predicate OnlyChanged(before: map<int, Material>, after: map<int, Material>, id: int) {
    && after.Keys == before.Keys
    && forall k :: k in before && k != id ==> after[k] == before[k]
  }

  /** `findAll(userId)`. `findMany` always yields an array, so its NotFound branch
      is never taken and an empty result is still "ok". */
  function FindAll(f: Fridge, userId: int, fault: Fault): (r: Result<StorageReply>)
    ensures r.Err? <==> Crashes(fault, Lookup)
    ensures r.Err? ==> r.thrown == Http(InternalError)
    ensures r.Ok? ==> r.value.Listing? && r.value.message == "ok"
    ensures r.Ok? ==> forall id :: id in r.value.data <==> id in f.rows && f.rows[id].userId == userId
    ensures r.Ok? ==> forall id :: id in r.value.data ==> r.value.data[id] == f.rows[id]
  {
    var body: Result<StorageReply> :=
      if Crashes(fault, Lookup) then Err(Unexpected)
      else Ok(Listing("ok", map id | id in f.rows && f.rows[id].userId == userId :: f.rows[id]));
    Swallow(body, (e: HttpError) => e.NotFound?, "Not Found Error!")
  }

  /** A row of this user with this name already exists. */
  predicate Stocked(f: Fridge, name: string, userId: int) {
    exists id :: id in f.rows && f.rows[id].name == name && f.rows[id].userId == userId
  }

  /** `addNewMaterials({dto, userId})`: the new row takes only the name and the user
      from the request; its amount is the column default. */
  function AddNewMaterials(f: Fridge, dto: MaterialDto, userId: int, fault: Fault): (t: Transition<StorageReply, Fridge>)
    ensures t.result.Err? ==> t.result.thrown == Http(InternalError) && t.state == f
    ensures !Crashes(fault, Lookup) && Stocked(f, dto.name, userId) ==>
              t == Transition(Ok(Flagged("Bad Request")), f)
    ensures t.result.Ok? && t.result.value.Summary? <==>
              !Crashes(fault, Lookup) && !Stocked(f, dto.name, userId) && !Crashes(fault, Write)
    ensures t.result == Ok(Flagged("Bad Request")) ==> Stocked(f, dto.name, userId)
    ensures Crashes(fault, Lookup) ==> t == Transition(Err(Http(InternalError)), f)
    ensures !Stocked(f, dto.name, userId) && Crashes(fault, Write) ==> t == Transition(Err(Http(InternalError)), f)
    ensures t.state != f <==> t.result.Ok? && t.result.value.Summary?
    ensures t.state != f ==> !Stocked(f, dto.name, userId)
    ensures t.state != f ==>
              && t.state.nextId == f.nextId + 1
              && t.state.defaultAmount == f.defaultAmount
              && t.state.rows.Keys == f.rows.Keys + {f.nextId}
              && t.state.rows[f.nextId] == Material(dto.name, userId, f.defaultAmount)
              && (forall k :: k in f.rows && k != f.nextId ==> t.state.rows[k] == f.rows[k])
              && t.result.value == Summary("Created", dto.name, f.defaultAmount, f.nextId)
  {
    var body: Transition<StorageReply, Fridge> :=
      if Crashes(fault, Lookup) then Transition(Err(Unexpected), f)
      else if Stocked(f, dto.name, userId) then
        Transition(Err(Http(BadRequest("This Material Already Exists!"))), f)
      else if Crashes(fault, Write) then Transition(Err(Unexpected), f)
      else
        var row := Material(dto.name, userId, f.defaultAmount);
        Transition(Ok(Summary("Created", row.name, row.amount, f.nextId)),
                   Fridge(f.rows[f.nextId := row], f.nextId + 1, f.defaultAmount));
    Transition(Swallow(body.result, (e: HttpError) => e.BadRequest?, "Bad Request"), body.state)
  }

  /** The amount `plusAmount` writes. */
  function Raised(amount: int): int {
    amount + 100
  }

  /** The amount `minesAmount` writes: 100 is taken off an amount above 100, and any
      amount of at most 100 is set to 100, so the result is always positive. */
  function Lowered(amount: int): (r: int)
    ensures r > 0
    ensures r < amount || r == 100
    ensures r <= amount <==> amount >= 100
  {
    if amount > 100 then amount - 100 else 100
  }

  /** The shared shape of `plusAmount` and `minesAmount`: look the row up by id
      alone, then write its name, its user and the new amount. */
  function Adjust(f: Fridge, materialId: int, fault: Fault, raise: bool): Transition<StorageReply, Fridge> {
    var body: Transition<StorageReply, Fridge> :=
      if Crashes(fault, Lookup) then Transition(Err(Unexpected), f)
      else if materialId !in f.rows then Transition(Err(Http(NotFound("This Material Not Found!"))), f)
      else if Crashes(fault, Write) then Transition(Err(Unexpected), f)
      else
        var m := f.rows[materialId];
        var m' := m.(amount := if raise then Raised(m.amount) else Lowered(m.amount));
        Transition(Ok(Summary("Ok", m'.name, m'.amount, materialId)), f.(rows := f.rows[materialId := m']));
    var flagged := if raise then "Not Found Error" else "Not Found Error!";
    Transition(Swallow(body.result, (e: HttpError) => e.NotFound?, flagged), body.state)
  }

  /** `plusAmount(materialId)`. */
  function PlusAmount(f: Fridge, materialId: int, fault: Fault): (t: Transition<StorageReply, Fridge>)
    ensures t.result.Err? ==> t.result.thrown == Http(InternalError) && t.state == f
    ensures materialId !in f.rows && !Crashes(fault, Lookup) ==>
              t == Transition(Ok(Flagged("Not Found Error")), f)
    ensures Crashes(fault, Lookup) ==> t == Transition(Err(Http(InternalError)), f)
    ensures materialId in f.rows && Crashes(fault, Write) ==> t == Transition(Err(Http(InternalError)), f)
    ensures t.result.Ok? && t.result.value.Summary? <==>
              materialId in f.rows && !Crashes(fault, Lookup) && !Crashes(fault, Write)
    ensures t.state.nextId == f.nextId && t.state.defaultAmount == f.defaultAmount
    ensures OnlyChanged(f.rows, t.state.rows, materialId)
    ensures t.result.Ok? && t.result.value.Summary? ==>
              && materialId in f.rows
              && var m := f.rows[materialId];
              && t.state.rows[materialId] == Material(m.name, m.userId, m.amount + 100)
              && t.result.value == Summary("Ok", m.name, m.amount + 100, materialId)
    ensures t.result.Ok? && !t.result.value.Summary? ==> t.state == f
  {
    Adjust(f, materialId, fault, true)
  }

  /** `minesAmount(materialId)`. */
  function MinesAmount(f: Fridge, materialId: int, fault: Fault): (t: Transition<StorageReply, Fridge>)
    ensures t.result.Err? ==> t.result.thrown == Http(InternalError) && t.state == f
    ensures materialId !in f.rows && !Crashes(fault, Lookup) ==>
              t == Transition(Ok(Flagged("Not Found Error!")), f)
    ensures Crashes(fault, Lookup) ==> t == Transition(Err(Http(InternalError)), f)
    ensures materialId in f.rows && Crashes(fault, Write) ==> t == Transition(Err(Http(InternalError)), f)
    ensures t.result.Ok? && t.result.value.Summary? <==>
              materialId in f.rows && !Crashes(fault, Lookup) && !Crashes(fault, Write)
    ensures t.state.nextId == f.nextId && t.state.defaultAmount == f.defaultAmount
    ensures OnlyChanged(f.rows, t.state.rows, materialId)
    ensures t.result.Ok? && t.result.value.Summary? ==>
              && materialId in f.rows
              && var m := f.rows[materialId];
              && t.state.rows[materialId].name == m.name
              && t.state.rows[materialId].userId == m.userId
              && t.state.rows[materialId].amount > 0
              && (m.amount > 100 ==> t.state.rows[materialId].amount == m.amount - 100)
              && (m.amount <= 100 ==> t.state.rows[materialId].amount == 100)
              && t.result.value == Summary("Ok", m.name, t.state.rows[materialId].amount, materialId)
    ensures t.result.Ok? && !t.result.value.Summary? ==> t.state == f
  {
    Adjust(f, materialId, fault, false)
  }

  /** `deleteMaterials({id, userId})`: the row must match both the id and the user. */
  function DeleteMaterials(f: Fridge, id: int, userId: int, fault: Fault): (t: Transition<StorageReply, Fridge>)
    ensures t.result.Err? ==> t.result.thrown == Http(InternalError) && t.state == f
    ensures !(id in f.rows && f.rows[id].userId == userId) && !Crashes(fault, Lookup) ==>
              t == Transition(Ok(Flagged("Not Found Error")), f)
    ensures Crashes(fault, Lookup) ==> t == Transition(Err(Http(InternalError)), f)
    ensures id in f.rows && f.rows[id].userId == userId && Crashes(fault, Write) ==>
              t == Transition(Err(Http(InternalError)), f)
    ensures t.result == Ok(Done("Ok")) <==>
              id in f.rows && f.rows[id].userId == userId && !Crashes(fault, Lookup) && !Crashes(fault, Write)
    ensures t.state != f ==> t.result == Ok(Done("Ok"))
    ensures t.state.defaultAmount == f.defaultAmount
    ensures t.result == Ok(Done("Ok")) ==>
              && t.state.nextId == f.nextId
              && t.state.rows.Keys == f.rows.Keys - {id}
              && forall k :: k in t.state.rows ==> t.state.rows[k] == f.rows[k]
  {
    var body: Transition<StorageReply, Fridge> :=
      if Crashes(fault, Lookup) then Transition(Err(Unexpected), f)
      else if !(id in f.rows && f.rows[id].userId == userId) then
        Transition(Err(Http(NotFound("The Same Material Not Found In Your Refrigerator!"))), f)
      else if Crashes(fault, Write) then Transition(Err(Unexpected), f)
      else Transition(Ok(Done("Ok")), f.(rows := f.rows - {id}));
    Transition(Swallow(body.result, (e: HttpError) => e.NotFound?, "Not Found Error"), body.state)
  }

  /** Raising then lowering a row restores it exactly when its amount was positive. */
  lemma PlusThenMinus(f: Fridge, materialId: int)
    requires materialId in f.rows
    ensures var f' := MinesAmount(PlusAmount(f, materialId, None).state, materialId, None).state;
            f' == f <==> f.rows[materialId].amount > 0
  {
  }

  /** The floor rule: lowering a row that holds 100 or less sets it to 100, so a
      decrement can leave the amount unchanged or even raise it. */
  lemma MinusOnSmallAmount(f: Fridge, materialId: int)
    requires materialId in f.rows && f.rows[materialId].amount <= 100
    ensures var t := MinesAmount(f, materialId, None);
            t.state.rows[materialId].amount == 100 >= f.rows[materialId].amount
  {
  }

  /** `plusAmount` and `minesAmount` look the row up by id alone: they change a row
      whatever user owns it. */
  lemma AdjustIgnoresOwner(f: Fridge, materialId: int, fault: Fault)
    requires materialId in f.rows && !Crashes(fault, Lookup) && !Crashes(fault, Write)
    ensures PlusAmount(f, materialId, fault).result.value.Summary?
    ensures MinesAmount(f, materialId, fault).result.value.Summary?
  {
  }

  /** The dto's type and count never reach the store or the reply. */
  lemma AddIgnoresTypeAndCount(f: Fridge, d1: MaterialDto, d2: MaterialDto, userId: int, fault: Fault)
    requires d1.name == d2.name
    ensures AddNewMaterials(f, d1, userId, fault) == AddNewMaterials(f, d2, userId, fault)
  {
  }

  /** A successful add on a valid table creates exactly one row, keeps the table
      valid, and the user's listing then shows the new row. */
  lemma AddThenFindAll(f: Fridge, dto: MaterialDto, userId: int)
    requires Valid(f)
    requires AddNewMaterials(f, dto, userId, None).result.value.Summary?
    ensures var f' := AddNewMaterials(f, dto, userId, None).state;
            && Valid(f')
            && |f'.rows| == |f.rows| + 1
            && var l := FindAll(f', userId, None).value.data;
            f.nextId in l && l[f.nextId] == Material(dto.name, userId, f.defaultAmount)
  {
  }

  /** Adding the same material twice: the second add is flagged and changes nothing. */
  lemma AddTwiceFlagged(f: Fridge, dto: MaterialDto, userId: int, fault: Fault)
    requires AddNewMaterials(f, dto, userId, None).result.value.Summary?
    requires !Crashes(fault, Lookup)
    ensures var f' := AddNewMaterials(f, dto, userId, None).state;
            AddNewMaterials(f', dto, userId, fault) == Transition(Ok(Flagged("Bad Request")), f')
  {
  }

  /** Deleting the row just added restores the rows of a valid table. */
  lemma AddThenDelete(f: Fridge, dto: MaterialDto, userId: int)
    requires Valid(f)
    requires AddNewMaterials(f, dto, userId, None).result.value.Summary?
    ensures var f' := AddNewMaterials(f, dto, userId, None).state;
            var t := DeleteMaterials(f', f.nextId, userId, None);
            t.result == Ok(Done("Ok")) && t.state.rows == f.rows
  {
  }

  /** A negative id, which `parseInt` can produce, names no row of a valid table:
      each id-based operation answers it as a missing row. */
  lemma NegativeIdIsMissing(f: Fridge, id: int, userId: int, fault: Fault)
    requires Valid(f) && id < 0 && !Crashes(fault, Lookup)
    ensures PlusAmount(f, id, fault) == Transition(Ok(Flagged("Not Found Error")), f)
    ensures MinesAmount(f, id, fault) == Transition(Ok(Flagged("Not Found Error!")), f)
    ensures DeleteMaterials(f, id, userId, fault) == Transition(Ok(Flagged("Not Found Error")), f)
  {
  }

  /** Every operation keeps the ids valid. */
  lemma OperationsKeepValid(f: Fridge, dto: MaterialDto, userId: int, id: int, fault: Fault)
    requires Valid(f)
    ensures Valid(AddNewMaterials(f, dto, userId, fault).state)
    ensures Valid(PlusAmount(f, id, fault).state)
    ensures Valid(MinesAmount(f, id, fault).state)
    ensures Valid(DeleteMaterials(f, id, userId, fault).state)
  {
  }
}
