/**
  The "fetch by name" use case: one `FetchByName` call on the repository,
  then every returned record converted to primitives, in the order returned.
  The query reaches the repository as given; there is no validation and so no
  `BadRequest`.
 */
module FetchPokemonsByName {
  import opened Wrappers
  import opened Entities
  import Repositories

  datatype Response = Response(number: U16, name: string, types: seq<string>)

  datatype Request = Request(name: string)

  datatype Error = Unknown

  /** The record converted back to primitives; each field validates back to the record's value object when that is valid. */
  function ToResponse(p: Pokemon): (r: Response)
    ensures NumberTryFrom(r.number) == if IsNumber(p.number.value) then Some(p.number) else None
    ensures NameTryFrom(r.name) == if IsName(p.name.value) then Some(p.name) else None
    ensures TypesTryFrom(r.types) == if IsTypes(p.types.value) then Some(p.types) else None
  {
    Response(NumberToU16(p.number), NameToString(p.name), TypesToStrings(p.types))
  }

  /** Each record converted to primitives, in the same order. */
  function ToResponses(ps: seq<Pokemon>): (rs: seq<Response>)
    ensures |rs| == |ps|
    ensures forall i :: 0 <= i < |ps| ==> rs[i].number == ps[i].number.value
                                          && rs[i].name == ps[i].name.value
                                          && rs[i].types == ps[i].types.value
  {
    if ps == [] then [] else [ToResponse(ps[0])] + ToResponses(ps[1..])
  }

  /** The repository's answer mapped to the use case's result; `Unknown` is the only error, and it passes through. */
  function FromFetched(fetched: Result<seq<Pokemon>, Repositories.FetchAllError>): (r: Result<seq<Response>, Error>)
    ensures r.Err? <==> fetched.Err?
    ensures r.Ok? ==> |r.value| == |fetched.value|
    ensures r.Ok? ==> forall i :: 0 <= i < |r.value| ==> r.value[i].number == fetched.value[i].number.value
                                                         && r.value[i].name == fetched.value[i].name.value
                                                         && r.value[i].types == fetched.value[i].types.value
  {
    match fetched
    case Ok(pokemons) => Ok(ToResponses(pokemons))
    case Err(Unknown) => Err(Unknown)
  }

  /**
    Fetches the stored records whose name contains the request's name. Being a
    function, it reads the repository and changes nothing.
   */
  function Execute(repo: Repositories.InMemoryRepository, req: Request): (r: Result<seq<Response>, Error>)
    reads repo
    ensures r == Err(Unknown) <==> repo.error
    ensures r.Ok? ==> r.value == ToResponses(Repositories.Matching(repo.pokemons, req.name))
    ensures r.Ok? ==> forall resp :: resp in r.value <==>
                        exists p :: p in repo.pokemons && Repositories.Contains(p.name.value, req.name)
                                    && resp == ToResponse(p)
  {
    var fetched := repo.FetchByName(req.name);
    ResponsesOfMatching(repo.pokemons, req.name);
    FromFetched(fetched)
  }

  /** A response is among the converted matches exactly when it converts a stored record that matches. */
  lemma ResponsesOfMatching(stored: seq<Pokemon>, query: string)
    ensures forall resp :: resp in ToResponses(Repositories.Matching(stored, query)) <==>
              exists p :: p in stored && Repositories.Contains(p.name.value, query) && resp == ToResponse(p)
  {
  }

  // The use case's tests, as scenarios against a fresh in-memory repository.

  method UnknownWhenRepositoryFails() returns (r: Result<seq<Response>, Error>)
    ensures r == Err(Unknown)
  {
    var repo := new Repositories.InMemoryRepository();
    repo.WithError();
    r := Execute(repo, Request("Pikachu"));
  }

  /** "chu" occurs in "Apikachu" and "Pikachu" but not in "Charmander" (in no letter case). */
  lemma ChuNames()
    ensures Repositories.Contains("Apikachu", "chu")
    ensures Repositories.Contains("Pikachu", "chu")
    ensures !Repositories.Contains("Charmander", "chu")
  {
    assert Repositories.OccursAt("Apikachu", "chu", 5);
    assert Repositories.OccursAt("Pikachu", "chu", 4);
    Repositories.FirstCharAbsent("Charmander", "chu");
  }

  /** Substring matching in insertion order: "chu" picks "Apikachu" and "Pikachu", not "Charmander". */
  lemma ChuMatchesTwo(apikachu: Pokemon, pikachu: Pokemon, charmander: Pokemon)
    requires apikachu.name == PokemonName("Apikachu")
    requires pikachu.name == PokemonName.Pikachu()
    requires charmander.name == PokemonName.Charmander()
    ensures Repositories.Matching([apikachu, pikachu, charmander], "chu") == [apikachu, pikachu]
  {
    ChuNames();
    Repositories.MatchingCons(charmander, [], "chu");
    assert [charmander] + [] == [charmander];
    Repositories.MatchingCons(pikachu, [charmander], "chu");
    assert [pikachu] + [charmander] == [pikachu, charmander];
    Repositories.MatchingCons(apikachu, [pikachu, charmander], "chu");
    assert [apikachu] + [pikachu, charmander] == [apikachu, pikachu, charmander];
  }

  method ReturnsAllFetchedByNameOtherwise() returns (r: Result<seq<Response>, Error>)
    ensures r.Ok? && |r.value| == 2
    ensures r.value[0].name == "Apikachu"
    ensures r.value[1].name == NameToString(PokemonName.Pikachu())
  {
    var repo := new Repositories.InMemoryRepository();
    var req := Request("chu");
    var _ := repo.Insert(PokemonNumber(1), PokemonName("Apikachu"), PokemonTypes.Charmander());
    var _ := repo.Insert(PokemonNumber.Pikachu(), PokemonName.Pikachu(), PokemonTypes.Pikachu());
    var _ := repo.Insert(PokemonNumber.Charmander(), PokemonName.Charmander(), PokemonTypes.Charmander());
    assert repo.pokemons == [repo.pokemons[0], repo.pokemons[1], repo.pokemons[2]];
    ChuMatchesTwo(repo.pokemons[0], repo.pokemons[1], repo.pokemons[2]);
    r := Execute(repo, req);
  }
}
