/**
  The "create" use case: validate the three raw inputs, insert once, and map
  the storage outcome to a use-case result.
 */
module CreatePokemon {
  import opened Wrappers
  import opened Entities
  import Repositories

  datatype Request = Request(number: U16, name: string, types: seq<string>)

  datatype Response = Response(number: U16, name: string, types: seq<string>)

  datatype Error = BadRequest | Conflict | Unknown

  /** All three raw inputs pass their value object's validation. */
  predicate IsValid(req: Request) {
    IsNumber(req.number) && IsName(req.name) && IsTypes(req.types)
  }

  /** The record the three validated inputs make up, or `None` when any validation fails. */
  function Validate(req: Request): (r: Option<Pokemon>)
    ensures r.Some? <==> IsValid(req)
    ensures r.Some? ==> r.value.number.value == req.number && r.value.name.value == req.name
                        && r.value.types.value == req.types
  {
    match (NumberTryFrom(req.number), NameTryFrom(req.name), TypesTryFrom(req.types))
    case (Some(number), Some(name), Some(types)) => Some(Pokemon(number, name, types))
    case _ => None
  }

  /** The request a test builds from value objects, by converting each back to its primitive. */
  function RequestNew(number: PokemonNumber, name: PokemonName, types: PokemonTypes): (req: Request)
    ensures Validate(req) == if IsNumber(number.value) && IsName(name.value) && IsTypes(types.value)
                             then Some(Pokemon(number, name, types)) else None
  {
    Request(NumberToU16(number), NameToString(name), TypesToStrings(types))
  }

  /** The record converted back to primitives; for a valid record, the response validates back to it. */
  function ToResponse(p: Pokemon): (r: Response)
    ensures IsValid(Request(r.number, r.name, r.types)) <==>
              IsNumber(p.number.value) && IsName(p.name.value) && IsTypes(p.types.value)
    ensures IsValid(Request(r.number, r.name, r.types)) ==> Validate(Request(r.number, r.name, r.types)) == Some(p)
  {
    Response(NumberToU16(p.number), NameToString(p.name), TypesToStrings(p.types))
  }

  /** The storage outcome mapped to the use case's result: each storage error passes through as the error of the same name. */
  function FromInsert(inserted: Result<Pokemon, Repositories.InsertError>): (r: Result<Response, Error>)
    ensures r == Err(Conflict) <==> inserted == Err(Repositories.Conflict)
    ensures r == Err(Unknown) <==> inserted == Err(Repositories.InsertError.Unknown)
    ensures r != Err(BadRequest)
    ensures inserted.Ok? ==> r.Ok? && r.value.number == inserted.value.number.value
                             && r.value.name == inserted.value.name.value
                             && r.value.types == inserted.value.types.value
  {
    match inserted
    case Ok(p) => Ok(ToResponse(p))
    case Err(Conflict) => Err(Conflict)
    case Err(Unknown) => Err(Unknown)
  }

  /**
    The result of creating `req` against a repository holding `stored`, in
    failure mode when `failing`: the decision table of the use case.
   */
  function Outcome(stored: seq<Pokemon>, failing: bool, req: Request): (r: Result<Response, Error>)
    ensures r == Err(BadRequest) <==> !IsValid(req)
    ensures r == Err(Unknown) <==> IsValid(req) && failing
    ensures r == Err(Conflict) <==>
              IsValid(req) && !failing && Repositories.HasNumber(stored, PokemonNumber(req.number))
    ensures r.Ok? ==> r.value == Response(req.number, req.name, req.types)
  {
    match Validate(req)
    case Some(p) => FromInsert(Repositories.InsertResult(stored, failing, p))
    case None => Err(BadRequest)
  }

  /** The records held after creating `req`: one more on success, the same ones on any error. */
  function Stored(stored: seq<Pokemon>, failing: bool, req: Request): (s: seq<Pokemon>)
    ensures Outcome(stored, failing, req).Err? ==> s == stored
    ensures Outcome(stored, failing, req).Ok? ==>
              s == stored + [Pokemon(PokemonNumber(req.number), PokemonName(req.name), PokemonTypes(req.types))]
    ensures Repositories.UniqueNumbers(stored) ==> Repositories.UniqueNumbers(s)
  {
    match Validate(req)
    case Some(p) => Repositories.AfterInsert(stored, failing, p)
    case None => stored
  }

  /**
    Validates the request and, only if all three inputs are valid, makes one
    `Insert` call; its outcome decides the result.
   */
  method Execute(repo: Repositories.InMemoryRepository, req: Request) returns (r: Result<Response, Error>)
    requires repo.Valid()
    modifies repo
    ensures repo.Valid()
    ensures repo.error == old(repo.error)
    ensures r == Outcome(old(repo.pokemons), repo.error, req)
    ensures repo.pokemons == Stored(old(repo.pokemons), repo.error, req)
    ensures repo.insertCalls == old(repo.insertCalls) + (if IsValid(req) then [Validate(req).value] else [])
  {
    match (NumberTryFrom(req.number), NameTryFrom(req.name), TypesTryFrom(req.types))
    case (Some(number), Some(name), Some(types)) =>
      var inserted := repo.Insert(number, name, types);
      r := FromInsert(inserted);
    case _ =>
      r := Err(BadRequest);
  }

  /** A second create with a stored number is a conflict, and the first record stays. */
  lemma {:induction false} CreateTwiceConflicts(stored: seq<Pokemon>, first: Request, second: Request)
    requires Outcome(stored, false, first).Ok?
    requires IsValid(second) && second.number == first.number
    ensures Outcome(Stored(stored, false, first), false, second) == Err(Conflict)
    ensures Stored(Stored(stored, false, first), false, second) == Stored(stored, false, first)
  {
    var after := Stored(stored, false, first);
    assert after[|stored|].number == PokemonNumber(second.number);
  }

  /** After a successful create, fetching by the created name ends with the created record. */
  lemma {:induction false} CreatedIsFetchable(stored: seq<Pokemon>, req: Request)
    requires Outcome(stored, false, req).Ok?
    ensures Repositories.Matching(Stored(stored, false, req), req.name)
            == Repositories.Matching(stored, req.name) + [Validate(req).value]
  {
    var p := Validate(req).value;
    Repositories.MatchingAppend(stored, [p], req.name);
    Repositories.ContainsItself(req.name);
    assert Repositories.Matching([p], req.name) == [p] by {
      assert [p][1..] == [];
    }
  }

  // The use case's tests, as scenarios against a fresh in-memory repository.

  method BadRequestWhenNameIsEmpty() returns (r: Result<Response, Error>)
    ensures r == Err(BadRequest)
  {
    var repo := new Repositories.InMemoryRepository();
    var req := RequestNew(PokemonNumber.Pikachu(), PokemonName.Bad(), PokemonTypes.Pikachu());
    r := Execute(repo, req);
  }

  method ConflictWhenNumberExists() returns (r: Result<Response, Error>)
    ensures r == Err(Conflict)
  {
    var repo := new Repositories.InMemoryRepository();
    var _ := repo.Insert(PokemonNumber.Pikachu(), PokemonName.Pikachu(), PokemonTypes.Pikachu());
    var req := RequestNew(PokemonNumber.Pikachu(), PokemonName.Charmander(), PokemonTypes.Charmander());
    r := Execute(repo, req);
    assert repo.pokemons[0].number == PokemonNumber.Pikachu();
  }

  method UnknownWhenRepositoryFails() returns (r: Result<Response, Error>)
    ensures r == Err(Unknown)
  {
    var repo := new Repositories.InMemoryRepository();
    repo.WithError();
    var req := RequestNew(PokemonNumber.Pikachu(), PokemonName.Pikachu(), PokemonTypes.Pikachu());
    r := Execute(repo, req);
  }

  method ReturnsThePokemonOtherwise() returns (r: Result<Response, Error>)
    ensures r.Ok?
    ensures r.value.number == NumberToU16(PokemonNumber.Pikachu())
    ensures r.value.name == NameToString(PokemonName.Pikachu())
    ensures r.value.types == TypesToStrings(PokemonTypes.Pikachu())
  {
    var repo := new Repositories.InMemoryRepository();
    var req := RequestNew(PokemonNumber.Pikachu(), PokemonName.Pikachu(), PokemonTypes.Pikachu());
    r := Execute(repo, req);
  }
}
