/**
  The storage contract as the use cases see it, and the in-memory backend
  that the use cases' tests run against.

  The backend keeps its records in insertion order. It can be switched into
  a failure mode (`WithError`) in which every operation answers `Unknown`.
 */
module Repositories {
  import opened Wrappers
  import opened Entities

  datatype InsertError = Conflict | Unknown

  datatype FetchAllError = Unknown

  /** Some stored record has this number. */
  predicate HasNumber(stored: seq<Pokemon>, number: PokemonNumber) {
    exists i :: 0 <= i < |stored| && stored[i].number == number
  }

  /** No two stored records share a number. */
  ghost predicate UniqueNumbers(stored: seq<Pokemon>) {
    forall i, j :: 0 <= i < j < |stored| ==> stored[i].number != stored[j].number
  }

  /** `query` occurs in `s` starting at position `i`. */
  predicate OccursAt(s: string, query: string, i: nat) {
    i <= |s| && query <= s[i..]
  }

  /** `query` is a (case-sensitive) substring of `s`; the empty query is a substring of every string. */
  predicate Contains(s: string, query: string) {
    exists i :: 0 <= i <= |s| && OccursAt(s, query, i)
  }

  lemma {:induction false} ContainsItself(s: string)
    ensures Contains(s, s)
  {
    assert OccursAt(s, s, 0);
  }

  /** A string that lacks the first character of a non-empty query does not contain it. */
  lemma FirstCharAbsent(s: string, query: string)
    requires query != [] && query[0] !in s
    ensures !Contains(s, query)
  {
  }

  /** What `insert` answers: `Unknown` in failure mode, `Conflict` on a taken number, otherwise the new record. */
  function InsertResult(stored: seq<Pokemon>, failing: bool, p: Pokemon): (r: Result<Pokemon, InsertError>)
    ensures r == Err(InsertError.Unknown) <==> failing
    ensures r == Err(Conflict) <==> !failing && HasNumber(stored, p.number)
    ensures r.Ok? ==> r.value == p
  {
    if failing then Err(InsertError.Unknown)
    else if HasNumber(stored, p.number) then Err(Conflict)
    else Ok(p)
  }

  /** The stored records after `insert`. */
  function AfterInsert(stored: seq<Pokemon>, failing: bool, p: Pokemon): (s: seq<Pokemon>)
    ensures InsertResult(stored, failing, p).Ok? ==> s == stored + [p]
    ensures InsertResult(stored, failing, p).Err? ==> s == stored
    ensures UniqueNumbers(stored) ==> UniqueNumbers(s)
  {
    if InsertResult(stored, failing, p).Ok? then stored + [p] else stored
  }

  /** The stored records whose name contains `query`, in insertion order. */
  function Matching(stored: seq<Pokemon>, query: string): (r: seq<Pokemon>)
    ensures |r| <= |stored|
    ensures forall p :: p in r ==> p in stored && Contains(p.name.value, query)
    ensures forall p :: p in stored && Contains(p.name.value, query) ==> p in r
  {
    if stored == [] then []
    else if Contains(stored[0].name.value, query) then [stored[0]] + Matching(stored[1..], query)
    else Matching(stored[1..], query)
  }

  /** One filtering step: the first record is kept exactly when its name contains the query. */
  lemma MatchingCons(p: Pokemon, rest: seq<Pokemon>, query: string)
    ensures Matching([p] + rest, query)
            == (if Contains(p.name.value, query) then [p] else []) + Matching(rest, query)
  {
    assert ([p] + rest)[0] == p;
    assert ([p] + rest)[1..] == rest;
  }

  /** Filtering distributes over concatenation, so the result keeps insertion order. */
  lemma {:induction false} MatchingAppend(a: seq<Pokemon>, b: seq<Pokemon>, query: string)
    ensures Matching(a + b, query) == Matching(a, query) + Matching(b, query)
  {
    if a == [] {
      assert a + b == b;
    } else {
      assert (a + b)[0] == a[0];
      assert (a + b)[1..] == a[1..] + b;
      MatchingAppend(a[1..], b, query);
    }
  }

  class InMemoryRepository {
    /** The failure mode, set by `WithError`. */
    var error: bool
    /** The stored records, in insertion order. */
    var pokemons: seq<Pokemon>
    /** The argument of every `Insert` call made so far, in call order. */
    ghost var insertCalls: seq<Pokemon>

    ghost predicate Valid()
      reads this
    {
      UniqueNumbers(pokemons)
    }

    constructor ()
      ensures Valid()
      ensures !error && pokemons == [] && insertCalls == []
    {
      error := false;
      pokemons := [];
      insertCalls := [];
    }

    /** Switches the repository into failure mode. */
    method WithError()
      requires Valid()
      modifies this
      ensures Valid()
      ensures error && pokemons == old(pokemons) && insertCalls == old(insertCalls)
    {
      error := true;
    }

    method Insert(number: PokemonNumber, name: PokemonName, types: PokemonTypes)
      returns (r: Result<Pokemon, InsertError>)
      requires Valid()
      modifies this
      ensures Valid()
      ensures error == old(error)
      ensures r == InsertResult(old(pokemons), error, Pokemon(number, name, types))
      ensures pokemons == AfterInsert(old(pokemons), error, Pokemon(number, name, types))
      ensures insertCalls == old(insertCalls) + [Pokemon(number, name, types)]
    {
      var p := Pokemon(number, name, types);
      insertCalls := insertCalls + [p];
      if error {
        return Err(InsertError.Unknown);
      }
      if HasNumber(pokemons, number) {
        return Err(Conflict);
      }
      pokemons := pokemons + [p];
      r := Ok(p);
    }

    /** The stored records whose name contains `name`, or `Unknown` in failure mode. */
    function FetchByName(name: string): (r: Result<seq<Pokemon>, FetchAllError>)
      reads this
      ensures r.Err? <==> error
      ensures r.Ok? ==> r.value == Matching(pokemons, name)
    ensures r.Ok? ==> forall p :: p in r.value <==> p in pokemons && Contains(p.name.value, name)
    {
      if error then Err(FetchAllError.Unknown) else Ok(Matching(pokemons, name))
    }
  }
}
