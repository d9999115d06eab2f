# Pokédex domain use cases, modelled in Dafny

This project models the domain layer of a small Pokédex service. The service stores
records ("pokemon"). Each record has a number (its identity, an unsigned 16-bit
integer), a name and a list of type names. Two use cases are modelled:

- **create** (`CreatePokemon.Execute`) validates the raw number, name and types into
  value objects. Only when all three are valid does it call the repository's `insert`,
  exactly once. The outcome becomes the created record converted back to primitives, or
  `BadRequest` (a validation failed), `Conflict` (the number is taken) or `Unknown`
  (the repository failed).
- **fetch by name** (`FetchPokemonsByName.Execute`) passes the query unchanged to the
  repository's `fetch_by_name`. It converts each returned record to primitives in the
  order returned, or passes the repository's only error, `Unknown`, through.

Files:

- `wrappers.dfy`: `Option` and `Result`.
- `entities.dfy`: the value objects and their `TryFrom` constructors and back-conversions.
- `repositories.dfy`: the in-memory repository as a class. It holds a `seq` of records
  in insertion order and a failure flag. It also has the pure functions that specify
  `insert` and `fetch_by_name`.
- `create_pokemon.dfy`: the create use case and its decision table.
- `fetch_pokemons_by_name.dfy`: the fetch-by-name use case.

The create use case is a method that modifies the repository, because `insert` changes
the repository's table. It is proved against the pure function `Outcome`, which holds the
decision table, and `Stored`, which gives the new table. The repository also keeps a
ghost log of its `Insert` calls. Through that log, `Execute` states that it makes one
`Insert` call when the request is valid and none otherwise. It never retries. The
fetch use case is a function that only reads the repository.

## Model

| member | source | states |
|---|---|---|
| Entities.NumberTryFrom | src/domain/create_pokemon.rs:34 | succeeds exactly when the number passes validation; the value object wraps the input unchanged |
| Entities.NameTryFrom | src/domain/create_pokemon.rs:35 | succeeds exactly when the name passes validation (the empty name fails); the value object wraps the input unchanged |
| Entities.TypesTryFrom | src/domain/create_pokemon.rs:36 | succeeds exactly when the type list passes validation; the value object wraps the input unchanged |
| Entities.NumberToU16 | src/domain/create_pokemon.rs:176 | lossless: the `u16` validates back to the same number when that is valid, and is refused otherwise |
| Entities.NameToString | src/domain/create_pokemon.rs:177 | lossless: the string validates back to the same name when that is valid, and is refused otherwise |
| Entities.TypesToStrings | src/domain/create_pokemon.rs:178 | lossless: the list validates back to the same types when they are valid, and is refused otherwise |
| Repositories.InsertResult | src/domain/create_pokemon.rs:38-53 | `insert` answers `Unknown` exactly in failure mode, `Conflict` exactly when not failing and the number is stored, otherwise the record it was given |
| Repositories.AfterInsert | src/domain/create_pokemon.rs:99-104 | a successful insert appends the record at the end; a failed one leaves the table alone; numbers stay unique |
| Repositories.Matching | src/domain/fetch_pokemons_by_name.rs:53-84 | the result holds exactly the stored records whose name contains the query, and is no longer than the table |
| Repositories.MatchingAppend | src/domain/fetch_pokemons_by_name.rs:53-84 | filtering distributes over concatenation, so matches come back in insertion order |
| Repositories.FirstCharAbsent | src/domain/fetch_pokemons_by_name.rs:69-73 | a name lacking the query's first character does not contain the query; used to exclude "Charmander", which lacks "chu" in any letter case |
| Repositories.InMemoryRepository.constructor | src/domain/create_pokemon.rs:66 | a new repository is empty, not failing, with no insert calls |
| Repositories.InMemoryRepository.WithError | src/domain/create_pokemon.rs:123 | switches on failure mode and keeps the stored records |
| Repositories.InMemoryRepository.Insert | src/domain/create_pokemon.rs:99-104 | answers `InsertResult`, leaves the table as `AfterInsert`, logs one call, keeps numbers unique |
| Repositories.InMemoryRepository.FetchByName | src/domain/fetch_pokemons_by_name.rs:20 | fails exactly in failure mode; otherwise returns `Matching` of the stored records: exactly those whose name contains the query, in insertion order |
| CreatePokemon.Validate | src/domain/create_pokemon.rs:33-37 | yields a record exactly when all three inputs validate, and that record holds the inputs unchanged |
| CreatePokemon.RequestNew | src/domain/create_pokemon.rs:173-181 | a request built from value objects validates back to exactly those objects when they are valid, and fails validation otherwise |
| CreatePokemon.ToResponse | src/domain/create_pokemon.rs:46-50 | the response's primitives form a valid request exactly when the record's value objects are valid, and then validate back to that record |
| CreatePokemon.FromInsert | src/domain/create_pokemon.rs:38-53 | `Conflict` and `Unknown` from storage become the use-case errors of the same name, never `BadRequest`; a stored record becomes a response with its fields |
| CreatePokemon.Outcome | src/domain/create_pokemon.rs:32-57 | the decision table: `BadRequest` exactly when some input is invalid, whatever the others are; `Unknown` exactly when valid and failing; `Conflict` exactly when valid, not failing and the number is stored; on success the response equals the request's inputs |
| CreatePokemon.Stored | src/domain/create_pokemon.rs:38-55 | on any error the table is unchanged; on success the new record is appended; numbers stay unique |
| CreatePokemon.Execute | src/domain/create_pokemon.rs:32-57 | result is `Outcome`, new table is `Stored`, failure flag unchanged, one insert call when the request is valid and none otherwise |
| CreatePokemon.CreateTwiceConflicts | src/domain/create_pokemon.rs:87-119 | creating again with a stored number is `Conflict`, and the first record stays |
| CreatePokemon.CreatedIsFetchable | src/domain/create_pokemon.rs:38-50 | after a successful create, fetching by the created name returns the earlier matches followed by the new record |
| CreatePokemon.BadRequestWhenNameIsEmpty | src/domain/create_pokemon.rs:64-85 | a valid number and types with the empty name give `BadRequest` |
| CreatePokemon.ConflictWhenNumberExists | src/domain/create_pokemon.rs:87-119 | a request reusing Pikachu's stored number gives `Conflict` |
| CreatePokemon.UnknownWhenRepositoryFails | src/domain/create_pokemon.rs:121-143 | a valid request against a failing repository gives `Unknown` |
| CreatePokemon.ReturnsThePokemonOtherwise | src/domain/create_pokemon.rs:145-171 | a valid request against an empty repository returns Pikachu's number, name and types |
| FetchPokemonsByName.ToResponses | src/domain/fetch_pokemons_by_name.rs:21-28 | same length as the records, and each response's fields are the matching record's converted fields |
| FetchPokemonsByName.ToResponse | src/domain/fetch_pokemons_by_name.rs:23-27 | each field of the response validates back to the record's value object when that is valid, and is refused otherwise |
| FetchPokemonsByName.FromFetched | src/domain/fetch_pokemons_by_name.rs:19-32 | an error exactly when the repository errs (`Unknown` is the only one); otherwise same length and order, field by field; an empty answer gives `Ok` of an empty list |
| FetchPokemonsByName.Execute | src/domain/fetch_pokemons_by_name.rs:19-32 | `Unknown` exactly in failure mode, for any query; otherwise the converted matches in insertion order, a response being present exactly when it converts a stored record whose name contains the query |
| FetchPokemonsByName.ResponsesOfMatching | src/domain/fetch_pokemons_by_name.rs:20-28 | a response is among the converted matches exactly when it converts a stored record that matches |
| FetchPokemonsByName.UnknownWhenRepositoryFails | src/domain/fetch_pokemons_by_name.rs:40-50 | a failing repository gives `Unknown` |
| FetchPokemonsByName.ChuNames | src/domain/fetch_pokemons_by_name.rs:55-73 | "chu" occurs in "Apikachu" and "Pikachu" and not in "Charmander" |
| FetchPokemonsByName.ChuMatchesTwo | src/domain/fetch_pokemons_by_name.rs:52-84 | with "Apikachu", "Pikachu" and "Charmander" stored in that order, "chu" matches exactly the first two, in that order |
| FetchPokemonsByName.ReturnsAllFetchedByNameOtherwise | src/domain/fetch_pokemons_by_name.rs:52-84 | the same scenario through the use case gives two responses, "Apikachu" first |

## Left out

- `src/domain/entities.rs` is not part of this model. The value objects are modelled from
  how the use cases and tests use them. Their validation rules are assumptions: the number
  is nonzero, the name is non-empty and the type list is non-empty. Whitespace trimming of
  names, an upper bound on numbers and rules on individual type names are not modelled.
  All use-case properties are stated through `IsNumber`, `IsName` and `IsTypes`, so they
  hold for any choice of those rules.
- The fixture values (`PokemonNumber.Charmander()` = 4 and the like) are assumptions. The
  tests only need Charmander's number to differ from 1 and 25.
- `src/repositories/pokemon.rs` is not part of this model. Its in-memory backend is
  modelled from the use cases and their tests. Assumptions: `insert` checks failure mode
  before it checks for a conflict; `fetch_by_name` is a case-sensitive substring match
  (the empty query matches every record), in insertion order.
- The repository's `delete`, `fetch_one` and `fetch_all` and the matching use cases are
  not modelled. They are not part of the two use cases shown.
- The SQLite and Airtable backends are external I/O whose sources are not available.
- `Arc` sharing and the mutex around the in-memory table are not modelled. The repository
  is a single-owner object. A poisoned lock is not modelled either; the assumption is
  that the backend would report it as `Unknown`.
- Argument parsing, backend selection, start-up and the HTTP and terminal front ends
  (`src/main.rs`, `src/api/`, `src/cli/`) are process plumbing and I/O.
- JSON decoding is out of scope. The request number is modelled as an integer in
  `0 .. 65535`, as the deserialised `u16` is.
