/**
  The value objects of the domain and the record they make up.

  Each value object is a wrapper around one primitive, with a fallible
  constructor from that primitive (`TryFrom`) and a lossless conversion back
  (`To...`). Their validation rules are stated once, by the predicates
  `IsNumber`, `IsName` and `IsTypes`; everything proved about the use cases
  is stated in terms of these predicates.
 */
module Entities {
  import opened Wrappers

  /** The unsigned 16-bit integers that carry a record's number. */
  type U16 = n: int | 0 <= n < 0x1_0000

  datatype PokemonNumber = PokemonNumber(value: U16) {
    static function Pikachu(): PokemonNumber { PokemonNumber(25) }
    static function Charmander(): PokemonNumber { PokemonNumber(4) }
  }

  datatype PokemonName = PokemonName(value: string) {
    static function Pikachu(): PokemonName { PokemonName("Pikachu") }
    static function Charmander(): PokemonName { PokemonName("Charmander") }
    /** A name that the validation rule refuses; tests use it to build a bad request. */
    static function Bad(): PokemonName { PokemonName("") }
  }

  datatype PokemonTypes = PokemonTypes(value: seq<string>) {
    static function Pikachu(): PokemonTypes { PokemonTypes(["Electric"]) }
    static function Charmander(): PokemonTypes { PokemonTypes(["Fire"]) }
  }

  /** A stored record; its number is its identity. */
  datatype Pokemon = Pokemon(number: PokemonNumber, name: PokemonName, types: PokemonTypes)

  // Validation rules of the value objects.
  predicate IsNumber(n: U16) { n != 0 }
  predicate IsName(s: string) { s != [] }
  predicate IsTypes(ts: seq<string>) { ts != [] }

  function NumberTryFrom(n: U16): (r: Option<PokemonNumber>)
    ensures r.Some? <==> IsNumber(n)
    ensures r.Some? ==> r.value == PokemonNumber(n)
  {
    if IsNumber(n) then Some(PokemonNumber(n)) else None
  }

  function NameTryFrom(s: string): (r: Option<PokemonName>)
    ensures r.Some? <==> IsName(s)
    ensures r.Some? ==> r.value == PokemonName(s)
  {
    if IsName(s) then Some(PokemonName(s)) else None
  }

  function TypesTryFrom(ts: seq<string>): (r: Option<PokemonTypes>)
    ensures r.Some? <==> IsTypes(ts)
    ensures r.Some? ==> r.value == PokemonTypes(ts)
  {
    if IsTypes(ts) then Some(PokemonTypes(ts)) else None
  }

  // The back-conversions are lossless: a valid value object converted to its
  // primitive validates back to itself, and an invalid one is refused again.

  function NumberToU16(n: PokemonNumber): (r: U16)
    ensures NumberTryFrom(r) == if IsNumber(n.value) then Some(n) else None
  {
    n.value
  }

  function NameToString(n: PokemonName): (r: string)
    ensures NameTryFrom(r) == if IsName(n.value) then Some(n) else None
  {
    n.value
  }

  function TypesToStrings(t: PokemonTypes): (r: seq<string>)
    ensures TypesTryFrom(r) == if IsTypes(t.value) then Some(t) else None
  {
    t.value
  }
}
