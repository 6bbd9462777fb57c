/**
 The provider store of internal/config/config.go: the alias of the current
 provider and the providers in insertion order. The Go methods mutate the
 store in place and return an error; here each mutating operation returns an
 `Outcome` holding the store afterwards and the status, so that "an error
 leaves the store unchanged" is a stated property rather than a convention.
 Aliases are not checked for uniqueness or emptiness when a store is built;
 only the operations keep them distinct.
 */
module ProviderStore {
  import opened Results
  import opened Providers

  /** The error values of config.go. `InvalidAlias` is declared there but never returned. */
  datatype ConfigError = ProviderNotFound | ProviderExists | NoProviders | InvalidAlias

  datatype Config = Config(currentProvider: string, providers: seq<Provider>)

  datatype Status = Ok | Err(error: ConfigError)

  /** The store after a mutating operation, together with what the operation returned. */
  datatype Outcome = Outcome(config: Config, status: Status)

  ghost predicate HasAlias(ps: seq<Provider>, alias: string) {
    exists i :: 0 <= i < |ps| && ps[i].alias == alias
  }

  /** `i` is the first position holding `alias`. */
  ghost predicate FirstMatch(ps: seq<Provider>, alias: string, i: int) {
    0 <= i < |ps| && ps[i].alias == alias &&
    forall j :: 0 <= j < i ==> ps[j].alias != alias
  }

  ghost predicate DistinctAliases(ps: seq<Provider>) {
    forall i, j :: 0 <= i < j < |ps| ==> ps[i].alias != ps[j].alias
  }

  /** The linear scan shared by every operation: the first index, from `from` on, holding `alias`. */
  function FindAliasFrom(ps: seq<Provider>, alias: string, from: nat): (r: Option<nat>)
    requires from <= |ps|
    ensures r.Some? ==> from <= r.value < |ps| && ps[r.value].alias == alias &&
                        forall j :: from <= j < r.value ==> ps[j].alias != alias
    ensures r.None? ==> forall j :: from <= j < |ps| ==> ps[j].alias != alias
    decreases |ps| - from
  {
    if from == |ps| then None
    else if ps[from].alias == alias then Some(from)
    else FindAliasFrom(ps, alias, from + 1)
  }

  function FindAlias(ps: seq<Provider>, alias: string): (r: Option<nat>)
    ensures r.Some? <==> HasAlias(ps, alias)
    ensures r.Some? ==> FirstMatch(ps, alias, r.value)
  {
    FindAliasFrom(ps, alias, 0)
  }

  /** GetProvider: the first provider with the alias, or ProviderNotFound. */
  function GetProvider(c: Config, alias: string): (r: Result<Provider, ConfigError>)
    ensures r.Success? <==> HasAlias(c.providers, alias)
    ensures r.Success? ==> exists i :: FirstMatch(c.providers, alias, i) && c.providers[i] == r.value
    ensures r.Failure? ==> r.error == ProviderNotFound
  {
    match FindAlias(c.providers, alias)
    case Some(i) => Success(c.providers[i])
    case None => Failure(ProviderNotFound)
  }

  /**
   GetCurrentProvider: NoProviders when no provider is current, otherwise the
   lookup of the current alias, so a dangling alias reports ProviderNotFound.
   */
  function GetCurrentProvider(c: Config): (r: Result<Provider, ConfigError>)
    ensures c.currentProvider == "" ==> r == Failure(NoProviders)
    ensures c.currentProvider != "" ==> r == GetProvider(c, c.currentProvider)
    ensures c.currentProvider != "" && !HasAlias(c.providers, c.currentProvider) ==>
              r == Failure(ProviderNotFound)
  {
    if c.currentProvider == "" then Failure(NoProviders)
    else GetProvider(c, c.currentProvider)
  }

  /** AddProvider: refuse a taken alias, otherwise append the defaulted provider. */
  function AddProvider(c: Config, p: Provider): (r: Outcome)
    ensures HasAlias(c.providers, p.alias) ==> r == Outcome(c, Err(ProviderExists))
    ensures !HasAlias(c.providers, p.alias) ==>
              && r.status == Ok
              && |r.config.providers| == |c.providers| + 1
              && r.config.providers[..|c.providers|] == c.providers
              && r.config.providers[|c.providers|] == FillDefaults(p)
              && r.config.currentProvider == c.currentProvider
  {
    if FindAlias(c.providers, p.alias).Some? then Outcome(c, Err(ProviderExists))
    else Outcome(c.(providers := c.providers + [FillDefaults(p)]), Ok)
  }

  /** Another entry than the one at `i` already uses `alias`. */
  predicate TakenElsewhere(ps: seq<Provider>, i: int, alias: string) {
    exists j :: 0 <= j < |ps| && j != i && ps[j].alias == alias
  }

  /**
   UpdateProvider: replace, in place, the first provider holding `alias` by
   the defaulted `p`. A rename onto an alias held by a different entry is
   refused; a rename of the current provider moves the current alias along.
   */
  function UpdateProvider(c: Config, alias: string, p: Provider): (r: Outcome)
    ensures !HasAlias(c.providers, alias) ==> r == Outcome(c, Err(ProviderNotFound))
    ensures forall i :: FirstMatch(c.providers, alias, i) ==>
              if alias != p.alias && TakenElsewhere(c.providers, i, p.alias) then
                r == Outcome(c, Err(ProviderExists))
              else
                && r.status == Ok
                && |r.config.providers| == |c.providers|
                && r.config.providers[i] == FillDefaults(p)
                && (forall k :: 0 <= k < |c.providers| && k != i ==>
                      r.config.providers[k] == c.providers[k])
                && (r.config.currentProvider != c.currentProvider <==>
                      alias != p.alias && c.currentProvider == alias)
                && (alias != p.alias && c.currentProvider == alias ==>
                      r.config.currentProvider == p.alias)
  {
    match FindAlias(c.providers, alias)
    case None => Outcome(c, Err(ProviderNotFound))
    case Some(i) =>
      if alias != p.alias && TakenElsewhere(c.providers, i, p.alias) then
        Outcome(c, Err(ProviderExists))
      else
        var current := if alias != p.alias && c.currentProvider == alias then p.alias
                       else c.currentProvider;
        Outcome(Config(current, c.providers[i := FillDefaults(p)]), Ok)
  }

  /**
   RemoveProvider: drop the first provider holding `alias`, keeping the order
   of the others, and clear the current alias if it named that provider.
   */
  function RemoveProvider(c: Config, alias: string): (r: Outcome)
    ensures !HasAlias(c.providers, alias) ==> r == Outcome(c, Err(ProviderNotFound))
    ensures forall i :: FirstMatch(c.providers, alias, i) ==>
              && r.status == Ok
              && r.config.providers == c.providers[..i] + c.providers[i + 1..]
              && r.config.currentProvider == (if c.currentProvider == alias then "" else c.currentProvider)
  {
    match FindAlias(c.providers, alias)
    case None => Outcome(c, Err(ProviderNotFound))
    case Some(i) =>
      var current := if c.currentProvider == alias then "" else c.currentProvider;
      Outcome(Config(current, c.providers[..i] + c.providers[i + 1..]), Ok)
  }

  /** SetCurrentProvider: point the current alias at an existing provider. */
  function SetCurrentProvider(c: Config, alias: string): (r: Outcome)
    ensures !HasAlias(c.providers, alias) ==> r == Outcome(c, Err(ProviderNotFound))
    ensures HasAlias(c.providers, alias) ==>
              r == Outcome(c.(currentProvider := alias), Ok)
  {
    match GetProvider(c, alias)
    case Failure(e) => Outcome(c, Err(e))
    case Success(_) => Outcome(c.(currentProvider := alias), Ok)
  }

  /** Two first matches of the same alias are the same position. */
  lemma FirstMatchUnique(ps: seq<Provider>, alias: string, i: int, j: int)
    requires FirstMatch(ps, alias, i) && FirstMatch(ps, alias, j)
    ensures i == j
  {
  }

  /** In a store with distinct aliases, the entry holding an alias is its first match. */
  lemma DistinctFirstMatch(ps: seq<Provider>, alias: string, i: int)
    requires DistinctAliases(ps)
    requires 0 <= i < |ps| && ps[i].alias == alias
    ensures FirstMatch(ps, alias, i)
  {
  }

  /** A provider just added is what a lookup of its alias returns. */
  lemma AddThenGet(c: Config, p: Provider)
    requires !HasAlias(c.providers, p.alias)
    ensures AddProvider(c, p).status == Ok
    ensures GetProvider(AddProvider(c, p).config, p.alias) == Success(FillDefaults(p))
  {
    var ps := AddProvider(c, p).config.providers;
    var n := |c.providers|;
    assert ps[n].alias == p.alias;
    assert forall j :: 0 <= j < n ==> ps[j] == c.providers[j];
    assert FirstMatch(ps, p.alias, n);
    var r := GetProvider(AddProvider(c, p).config, p.alias);
    var i :| FirstMatch(ps, p.alias, i) && ps[i] == r.value;
    FirstMatchUnique(ps, p.alias, i, n);
  }

  lemma AddKeepsAliasesDistinct(c: Config, p: Provider)
    requires DistinctAliases(c.providers)
    ensures DistinctAliases(AddProvider(c, p).config.providers)
  {
    var r := AddProvider(c, p);
    if r.status == Ok {
      var ps := r.config.providers;
      var n := |c.providers|;
      forall i, j | 0 <= i < j < |ps|
        ensures ps[i].alias != ps[j].alias
      {
        assert ps[i] == c.providers[i];
        if j == n {
          assert ps[j].alias == p.alias;
        } else {
          assert ps[j] == c.providers[j];
        }
      }
    }
  }

  lemma UpdateKeepsAliasesDistinct(c: Config, alias: string, p: Provider)
    requires DistinctAliases(c.providers)
    ensures DistinctAliases(UpdateProvider(c, alias, p).config.providers)
  {
    var r := UpdateProvider(c, alias, p);
    if r.status == Ok {
      var i := FindAlias(c.providers, alias).value;
      var ps := r.config.providers;
      forall a, b | 0 <= a < b < |ps|
        ensures ps[a].alias != ps[b].alias
      {
        if a == i || b == i {
          var other := if a == i then b else a;
          assert ps[other] == c.providers[other];
          if alias == p.alias {
            assert ps[i].alias == c.providers[i].alias;
          } else {
            assert !TakenElsewhere(c.providers, i, p.alias);
          }
        }
      }
    }
  }

  lemma RemoveKeepsAliasesDistinct(c: Config, alias: string)
    requires DistinctAliases(c.providers)
    ensures DistinctAliases(RemoveProvider(c, alias).config.providers)
  {
    var r := RemoveProvider(c, alias);
    if r.status == Ok {
      var i := FindAlias(c.providers, alias).value;
      var ps := r.config.providers;
      forall a, b | 0 <= a < b < |ps|
        ensures ps[a].alias != ps[b].alias
      {
        var a' := if a < i then a else a + 1;
        var b' := if b < i then b else b + 1;
        assert ps[a] == c.providers[a'];
        assert ps[b] == c.providers[b'];
      }
    }
  }

  /**
   In a store with distinct aliases, after a successful update the new alias
   looks up the defaulted replacement, and the old alias is gone if it was renamed.
   */
  lemma UpdateThenGet(c: Config, alias: string, p: Provider)
    requires DistinctAliases(c.providers)
    requires UpdateProvider(c, alias, p).status == Ok
    ensures GetProvider(UpdateProvider(c, alias, p).config, p.alias) == Success(FillDefaults(p))
    ensures alias != p.alias ==>
              GetProvider(UpdateProvider(c, alias, p).config, alias) == Failure(ProviderNotFound)
  {
    var i := FindAlias(c.providers, alias).value;
    var ps := UpdateProvider(c, alias, p).config.providers;
    UpdateKeepsAliasesDistinct(c, alias, p);
    assert ps[i] == FillDefaults(p);
    DistinctFirstMatch(ps, p.alias, i);
    var r := GetProvider(UpdateProvider(c, alias, p).config, p.alias);
    var k :| FirstMatch(ps, p.alias, k) && ps[k] == r.value;
    FirstMatchUnique(ps, p.alias, i, k);
    if alias != p.alias {
      forall k | 0 <= k < |ps|
        ensures ps[k].alias != alias
      {
        if k != i {
          assert ps[k] == c.providers[k];
        }
      }
    }
  }

  /** Removing the current provider leaves no current provider; removing another leaves it. */
  lemma RemoveCurrentClearsPointer(c: Config, alias: string)
    requires HasAlias(c.providers, alias)
    ensures RemoveProvider(c, alias).status == Ok
    ensures RemoveProvider(c, alias).config.currentProvider ==
              (if c.currentProvider == alias then "" else c.currentProvider)
    ensures |RemoveProvider(c, alias).config.providers| == |c.providers| - 1
  {
    var i := FindAlias(c.providers, alias).value;
    assert FirstMatch(c.providers, alias, i);
  }

  /** After a successful SetCurrentProvider with a non-empty alias, the current provider resolves. */
  lemma SetThenGetCurrent(c: Config, alias: string)
    requires alias != "" && HasAlias(c.providers, alias)
    ensures GetCurrentProvider(SetCurrentProvider(c, alias).config) == GetProvider(c, alias)
    ensures GetCurrentProvider(SetCurrentProvider(c, alias).config).Success?
  {
  }
}
