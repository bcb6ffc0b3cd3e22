/**
 Filter names, the predicates stored under them, and the value-level rules
 that govern the filter registry of mocha-filter: the initial table, the
 protected built-in names, registration of one filter, registration of a
 list of filters, and the overlay that `setupMocha` performs on a
 caller-supplied table.
 */
module Filters {

  /** A filter name: a property key of a JS object. */
  type Name = string

  /** The one built-in filter. */
  const Ignore: Name := "ignore"

  /** The names captured as `Object.keys(checks)` when the module loads; never reassigned. */
  const OriginalChecks: seq<Name> := [Ignore]

  /** A predicate stored under a filter name. `IgnoreBuiltin` is the module's
      own `ignore` function, which returns false; `User(id)` is a
      caller-supplied function, told apart from others by `id`. */
  datatype Predicate = IgnoreBuiltin | User(id: nat)

  /** The JS truthiness of one evaluation of `p`. What a user function
      returns is not modelled; `outcome` is its truthiness on this
      evaluation (a returned string such as "skip" is just truthy). */
  function Truthy(p: Predicate, outcome: bool): (r: bool)
    ensures p.User? ==> r == outcome
    ensures p == IgnoreBuiltin ==> !r
  {
    match p
    case IgnoreBuiltin => false
    case User(_) => outcome
  }

  /** The registry as the module creates it. */
  function InitialRegistry(): (r: map<Name, Predicate>)
    ensures r.Keys == {Ignore}
    ensures forall outcome: bool :: !Truthy(r[Ignore], outcome)
  {
    map[Ignore := IgnoreBuiltin]
  }

  /** The table a caller's map holds after `setupMocha(map)` with falsy
      `skipOriginals`: every registry entry copied over it. */
  function Overlay(supplied: map<Name, Predicate>, registry: map<Name, Predicate>): (r: map<Name, Predicate>)
    ensures r.Keys == supplied.Keys + registry.Keys
    ensures forall k :: k in registry ==> r[k] == registry[k]
    ensures forall k :: k in supplied && k !in registry ==> r[k] == supplied[k]
  {
    supplied + registry
  }

  /** Overlaying a second time with the same registry changes nothing. */
  lemma OverlayIdempotent(supplied: map<Name, Predicate>, registry: map<Name, Predicate>)
    ensures Overlay(Overlay(supplied, registry), registry) == Overlay(supplied, registry)
  {
  }

  /** The registry after `addFilter(name, p)`: unchanged when `name` is
      protected, otherwise `name` now maps to `p`; every other entry stays. */
  function Register(registry: map<Name, Predicate>, protected: seq<Name>, name: Name, p: Predicate): (r: map<Name, Predicate>)
    ensures name in protected ==> r == registry
    ensures name !in protected ==> name in r && r[name] == p
    ensures forall k :: k != name ==> (k in r <==> k in registry)
    ensures forall k :: k != name && k in r ==> r[k] == registry[k]
  {
    if name in protected then registry else registry[name := p]
  }

  /** The registry after `addFilter` is called for each of `keys` in order:
      the last key, when unprotected, holds its own predicate afterwards. */
  function RegisterAll(registry: map<Name, Predicate>, protected: seq<Name>, keys: seq<Name>, filters: map<Name, Predicate>): (r: map<Name, Predicate>)
    requires forall i :: 0 <= i < |keys| ==> keys[i] in filters
    ensures |keys| > 0 && keys[|keys| - 1] !in protected ==> keys[|keys| - 1] in r && r[keys[|keys| - 1]] == filters[keys[|keys| - 1]]
    decreases |keys|
  {
    if keys == [] then registry
    else
      var last := keys[|keys| - 1];
      Register(RegisterAll(registry, protected, keys[..|keys| - 1], filters), protected, last, filters[last])
  }

  /** Every unprotected key in `keys` ends up mapped to its predicate in
      `filters`; every other entry of the registry is left as it was. */
  lemma {:induction false} RegisterAllRegistersEveryKey(registry: map<Name, Predicate>, protected: seq<Name>, keys: seq<Name>, filters: map<Name, Predicate>)
    requires forall i :: 0 <= i < |keys| ==> keys[i] in filters
    ensures var r := RegisterAll(registry, protected, keys, filters);
      forall k :: k in keys && k !in protected ==> k in r && r[k] == filters[k]
    ensures var r := RegisterAll(registry, protected, keys, filters);
      forall k :: k !in keys || k in protected ==> (k in r <==> k in registry) && (k in r ==> r[k] == registry[k])
    decreases |keys|
  {
    if keys != [] {
      var init := keys[..|keys| - 1];
      var last := keys[|keys| - 1];
      RegisterAllRegistersEveryKey(registry, protected, init, filters);
      assert keys == init + [last];
      forall k | k in keys
        ensures k == last || k in init
      {
      }
    }
  }

  /** The keys `addFilters` hands to `addFilter`: its loop stops at
      `keys.length - 1`, so the last key is never processed. */
  function AddFiltersKeys(keys: seq<Name>): (r: seq<Name>)
    ensures |keys| <= 1 ==> r == []
    ensures |keys| > 0 ==> |r| == |keys| - 1 && forall i :: 0 <= i < |r| ==> r[i] == keys[i]
  {
    if keys == [] then [] else keys[..|keys| - 1]
  }

  /** As written, `addFilters` leaves the registry entry of its last key as
      it was (keys of one object are distinct), and registers nothing for a
      map of one key or none. */
  lemma AddFiltersDropsLastKey(registry: map<Name, Predicate>, protected: seq<Name>, keys: seq<Name>, filters: map<Name, Predicate>)
    requires forall i :: 0 <= i < |keys| ==> keys[i] in filters
    requires forall i, j :: 0 <= i < j < |keys| ==> keys[i] != keys[j]
    ensures var r := RegisterAll(registry, protected, AddFiltersKeys(keys), filters);
      |keys| > 0 ==> (keys[|keys| - 1] in r <==> keys[|keys| - 1] in registry)
    ensures var r := RegisterAll(registry, protected, AddFiltersKeys(keys), filters);
      |keys| > 0 && keys[|keys| - 1] in registry ==> r[keys[|keys| - 1]] == registry[keys[|keys| - 1]]
    ensures |keys| <= 1 ==> RegisterAll(registry, protected, AddFiltersKeys(keys), filters) == registry
  {
    var visited := AddFiltersKeys(keys);
    RegisterAllRegistersEveryKey(registry, protected, visited, filters);
  }

  /** `addFilters({a, b, c})` on the initial registry registers `a` and `b` but not `c`. */
  lemma AddFiltersMissesThird(pa: Predicate, pb: Predicate, pc: Predicate)
    ensures var r := RegisterAll(InitialRegistry(), OriginalChecks, AddFiltersKeys(["a", "b", "c"]), map["a" := pa, "b" := pb, "c" := pc]);
      "a" in r && "b" in r && "c" !in r
  {
  }
}
