/** The favorites store: a most-recent-first list of at most eight
    locations, deduplicated on the key (lower-cased name, exact country).
    The list transforms are pure functions; `FavoritesStore` is the
    component state that each add or remove replaces. */
module Favorites {
  import opened Text

  /** Capacity of the list (`slice(0, 8)`). */
  const MaxFavorites: nat := 8

  datatype Favorite = Favorite(id: int, name: string, country: Option<string>, displayName: string)

  // ---------------------------------------------------------------------
  // Entries and keys

  /** The label stored with a new entry: an absent or empty country (both
      falsy in JavaScript) leaves the bare name. */
  function DisplayName(name: string, country: Option<string>): (r: string)
    ensures country.Some? && country.value != "" ==> r == name + ", " + country.value
    ensures country.None? || country.value == "" ==> r == name
  {
    match country
    case Some(c) => if c != "" then name + ", " + c else name
    case None => name
  }

  /** The entry `addToFavorites` builds; the id is the caller's clock value. */
  function NewFavorite(id: int, name: string, country: Option<string>): Favorite {
    Favorite(id, name, country, DisplayName(name, country))
  }

  /** The dedup test: names equal once lower-cased, countries strictly equal
      (two absent countries are equal, `""` differs from absent). */
  predicate SameKey(f: Favorite, name: string, country: Option<string>) {
    Lower(f.name) == Lower(name) && f.country == country
  }

  /** No two entries share a key. */
  ghost predicate NoDuplicateKeys(favs: seq<Favorite>) {
    forall i, j :: 0 <= i < j < |favs| ==> !SameKey(favs[i], favs[j].name, favs[j].country)
  }

  // ---------------------------------------------------------------------
  // Queries

  /** `favs.some(fav => same key)`. */
  function HasKey(favs: seq<Favorite>, name: string, country: Option<string>): (r: bool)
    ensures r <==> exists i :: 0 <= i < |favs| && SameKey(favs[i], name, country)
  {
    if favs == [] then false
    else if SameKey(favs[0], name, country) then true
    else
      var rest := HasKey(favs[1..], name, country);
      assert forall i :: 1 <= i < |favs| ==> favs[i] == favs[1..][i - 1];
      rest
  }

  /** `favs.find(fav => same key)`: the first entry with the key, if any. */
  function FindFavorite(favs: seq<Favorite>, name: string, country: Option<string>): (r: Option<Favorite>)
    ensures r.Some? <==> HasKey(favs, name, country)
    ensures r.Some? ==> exists i :: 0 <= i < |favs| && favs[i] == r.value &&
                                    SameKey(favs[i], name, country) &&
                                    forall j :: 0 <= j < i ==> !SameKey(favs[j], name, country)
  {
    if favs == [] then None
    else if SameKey(favs[0], name, country) then Some(favs[0])
    else
      var rest := FindFavorite(favs[1..], name, country);
      assert forall i :: 1 <= i < |favs| ==> favs[i] == favs[1..][i - 1];
      rest
  }

  // ---------------------------------------------------------------------
  // Updates

  /** `addToFavorites`: unchanged when the key is present, otherwise the new
      entry first and the list cut to `MaxFavorites`. */
  function AddTo(favs: seq<Favorite>, id: int, name: string, country: Option<string>): seq<Favorite> {
    if HasKey(favs, name, country) then favs
    else Take([NewFavorite(id, name, country)] + favs, MaxFavorites)
  }

  /** `removeFromFavorites`: `favs.filter(fav => fav.id !== id)`. */
  function RemoveFrom(favs: seq<Favorite>, id: int): (r: seq<Favorite>)
    ensures IsSubsequence(r, favs)
    ensures forall f :: f in r ==> f in favs && f.id != id
    ensures forall i :: 0 <= i < |favs| && favs[i].id != id ==> favs[i] in r
  {
    if favs == [] then []
    else
      var prefix := favs[..|favs| - 1];
      var last := favs[|favs| - 1];
      var kept := RemoveFrom(prefix, id);
      assert favs == prefix + [last];
      assert IsSubsequence(kept, prefix + [last]) by {
        if kept != [] { assert (prefix + [last])[..|prefix|] == prefix; }
      }
      if last.id == id then kept
      else
        assert (kept + [last])[..|kept|] == kept;
        assert (prefix + [last])[..|prefix|] == prefix;
        kept + [last]
  }

  /** Remove drops every entry with the id and keeps each other entry as
      many times as it occurs. */
  lemma {:induction false} RemoveFromCounts(favs: seq<Favorite>, id: int)
    ensures forall f :: multiset(RemoveFrom(favs, id))[f] ==
                        if f.id == id then 0 else multiset(favs)[f]
  {
    if favs != [] {
      var prefix, last := favs[..|favs| - 1], favs[|favs| - 1];
      RemoveFromCounts(prefix, id);
      assert favs == prefix + [last];
      assert multiset(favs) == multiset(prefix) + multiset{last};
    }
  }

  /** The add/remove button: remove the first entry with the key when the
      location is a favorite, add it otherwise. */
  function Toggled(favs: seq<Favorite>, id: int, name: string, country: Option<string>): seq<Favorite> {
    if HasKey(favs, name, country) then
      match FindFavorite(favs, name, country)
      case Some(f) => RemoveFrom(favs, f.id)
      case None => favs
    else AddTo(favs, id, name, country)
  }

  // ---------------------------------------------------------------------
  // Properties of add

  /** Adding a key that is already present changes nothing. */
  lemma AddExistingUnchanged(favs: seq<Favorite>, id: int, name: string, country: Option<string>)
    requires HasKey(favs, name, country)
    ensures AddTo(favs, id, name, country) == favs
  {
  }

  /** Adding a new key puts the new entry first, followed by the previous
      entries in order, keeping at most `MaxFavorites` in all. */
  lemma AddNewPrepends(favs: seq<Favorite>, id: int, name: string, country: Option<string>)
    requires !HasKey(favs, name, country)
    ensures var r := AddTo(favs, id, name, country);
            |r| >= 1 && r[0] == NewFavorite(id, name, country) &&
            r[1..] == Take(favs, MaxFavorites - 1)
  {
    var r := AddTo(favs, id, name, country);
    var t := Take(favs, MaxFavorites - 1);
    assert |r[1..]| == |t|;
    forall k | 0 <= k < |t| ensures r[1..][k] == t[k] {
      assert r[1..][k] == ([NewFavorite(id, name, country)] + favs)[k + 1];
    }
  }

  /** A list within the bound stays within it. */
  lemma AddBounded(favs: seq<Favorite>, id: int, name: string, country: Option<string>)
    requires |favs| <= MaxFavorites
    ensures |AddTo(favs, id, name, country)| <= MaxFavorites
  {
  }

  /** A new key added to a full list drops exactly the previous last entry. */
  lemma AddToFullEvictsLast(favs: seq<Favorite>, id: int, name: string, country: Option<string>)
    requires |favs| == MaxFavorites && !HasKey(favs, name, country)
    ensures AddTo(favs, id, name, country) == [NewFavorite(id, name, country)] + favs[..MaxFavorites - 1]
  {
    var n := NewFavorite(id, name, country);
    assert ([n] + favs)[..MaxFavorites] == [n] + favs[..MaxFavorites - 1];
  }

  /** After an add the location is a favorite, also when asked with a name
      that differs only in letter case. */
  lemma AddMakesFavorite(favs: seq<Favorite>, id: int, name: string, country: Option<string>, asked: string)
    requires Lower(asked) == Lower(name)
    ensures HasKey(AddTo(favs, id, name, country), asked, country)
  {
    var r := AddTo(favs, id, name, country);
    if HasKey(favs, name, country) {
      var i :| 0 <= i < |favs| && SameKey(favs[i], name, country);
      assert SameKey(r[i], asked, country);
    } else {
      assert SameKey(r[0], asked, country);
    }
  }

  /** Adding the same key twice (in any letter case) is the same as adding
      it once. */
  lemma AddTwiceSameAsOnce(favs: seq<Favorite>, id1: int, id2: int, name: string, country: Option<string>, again: string)
    requires Lower(again) == Lower(name)
    ensures AddTo(AddTo(favs, id1, name, country), id2, again, country) == AddTo(favs, id1, name, country)
  {
    LowerIdempotent(name);
    AddMakesFavorite(favs, id1, name, country, again);
  }

  /** Add keeps the list free of duplicate keys. */
  lemma AddPreservesNoDuplicateKeys(favs: seq<Favorite>, id: int, name: string, country: Option<string>)
    requires NoDuplicateKeys(favs)
    ensures NoDuplicateKeys(AddTo(favs, id, name, country))
  {
    if !HasKey(favs, name, country) {
      var n := NewFavorite(id, name, country);
      var all := [n] + favs;
      forall i, j | 0 <= i < j < |all| ensures !SameKey(all[i], all[j].name, all[j].country) {
        if i == 0 {
          assert all[j] == favs[j - 1];
          assert !SameKey(favs[j - 1], name, country);
        } else {
          assert all[i] == favs[i - 1] && all[j] == favs[j - 1];
        }
      }
      var r := Take(all, MaxFavorites);
      assert forall k :: 0 <= k < |r| ==> r[k] == all[k];
    }
  }

  // ---------------------------------------------------------------------
  // Properties of remove

  /** Removing an id no entry carries changes nothing. */
  lemma {:induction false} RemoveAbsentUnchanged(favs: seq<Favorite>, id: int)
    requires forall i :: 0 <= i < |favs| ==> favs[i].id != id
    ensures RemoveFrom(favs, id) == favs
  {
    if favs != [] {
      var prefix, last := favs[..|favs| - 1], favs[|favs| - 1];
      RemoveAbsentUnchanged(prefix, id);
      assert RemoveFrom(favs, id) == RemoveFrom(prefix, id) + [last];
      assert favs == prefix + [last];
    }
  }

  /** Removing twice is the same as removing once. */
  lemma RemoveIdempotent(favs: seq<Favorite>, id: int)
    ensures RemoveFrom(RemoveFrom(favs, id), id) == RemoveFrom(favs, id)
  {
    var r := RemoveFrom(favs, id);
    assert forall i :: 0 <= i < |r| ==> r[i] in r;
    RemoveAbsentUnchanged(r, id);
  }

  /** Remove keeps the list free of duplicate keys. */
  lemma {:induction false} RemovePreservesNoDuplicateKeys(favs: seq<Favorite>, id: int)
    requires NoDuplicateKeys(favs)
    ensures NoDuplicateKeys(RemoveFrom(favs, id))
  {
    if favs != [] {
      var prefix := favs[..|favs| - 1];
      var last := favs[|favs| - 1];
      RemovePreservesNoDuplicateKeys(prefix, id);
      var kept := RemoveFrom(prefix, id);
      if last.id != id {
        var r := kept + [last];
        forall i, j | 0 <= i < j < |r| ensures !SameKey(r[i], r[j].name, r[j].country) {
          if j == |kept| {
            assert r[i] in prefix;
            var k :| 0 <= k < |prefix| && prefix[k] == r[i];
            assert favs[k] == r[i] && favs[|favs| - 1] == last;
          } else {
            assert r[i] == kept[i] && r[j] == kept[j];
          }
        }
      }
    }
  }

  /** Removing the id of an entry with a given key leaves no entry with
      that key, provided keys were unique. */
  lemma RemoveClearsKey(favs: seq<Favorite>, k: nat, name: string, country: Option<string>)
    requires NoDuplicateKeys(favs)
    requires k < |favs| && SameKey(favs[k], name, country)
    ensures !HasKey(RemoveFrom(favs, favs[k].id), name, country)
  {
    var r := RemoveFrom(favs, favs[k].id);
    forall i | 0 <= i < |r| ensures !SameKey(r[i], name, country) {
      assert r[i] in r;
      var j :| 0 <= j < |favs| && favs[j] == r[i];
      assert j != k;
      if j < k {
        assert !SameKey(favs[j], favs[k].name, favs[k].country);
      } else {
        assert !SameKey(favs[k], favs[j].name, favs[j].country);
      }
    }
  }

  // ---------------------------------------------------------------------
  // Properties of the toggle

  /** With unique keys the button flips whether the location is a favorite. */
  lemma ToggleFlips(favs: seq<Favorite>, id: int, name: string, country: Option<string>)
    requires NoDuplicateKeys(favs)
    ensures HasKey(Toggled(favs, id, name, country), name, country) == !HasKey(favs, name, country)
  {
    if HasKey(favs, name, country) {
      var f := FindFavorite(favs, name, country).value;
      var i :| 0 <= i < |favs| && favs[i] == f && SameKey(favs[i], name, country) &&
               forall j :: 0 <= j < i ==> !SameKey(favs[j], name, country);
      RemoveClearsKey(favs, i, name, country);
    } else {
      AddMakesFavorite(favs, id, name, country, name);
    }
  }

  /** Toggling keeps the list within the bound and free of duplicate keys. */
  lemma TogglePreservesInvariant(favs: seq<Favorite>, id: int, name: string, country: Option<string>)
    requires |favs| <= MaxFavorites && NoDuplicateKeys(favs)
    ensures var r := Toggled(favs, id, name, country);
            |r| <= MaxFavorites && NoDuplicateKeys(r)
  {
    if HasKey(favs, name, country) {
      var f := FindFavorite(favs, name, country).value;
      RemovePreservesNoDuplicateKeys(favs, f.id);
      var r := RemoveFrom(favs, f.id);
      SubsequenceNotLonger(r, favs);
    } else {
      AddBounded(favs, id, name, country);
      AddPreservesNoDuplicateKeys(favs, id, name, country);
    }
  }

  lemma {:induction false} SubsequenceNotLonger(r: seq<Favorite>, s: seq<Favorite>)
    requires IsSubsequence(r, s)
    ensures |r| <= |s|
    decreases |s|
  {
    if r != [] {
      if r[|r| - 1] == s[|s| - 1] && IsSubsequence(r[..|r| - 1], s[..|s| - 1]) {
        SubsequenceNotLonger(r[..|r| - 1], s[..|s| - 1]);
      } else {
        SubsequenceNotLonger(r, s[..|s| - 1]);
      }
    }
  }

  /** Three adds of which the second repeats the first in another letter
      case leave two entries, most recent first. */
  lemma AddExample()
    ensures AddTo(AddTo(AddTo([], 1, "Colombo", Some("LK")), 2, "colombo", Some("LK")), 3, "London", Some("GB"))
            == [Favorite(3, "London", Some("GB"), "London, GB"), Favorite(1, "Colombo", Some("LK"), "Colombo, LK")]
  {
    ExampleFirstAdd();
    ExampleRepeatedAdd();
    ExampleSecondCity();
  }

  lemma ExampleFirstAdd()
    ensures AddTo([], 1, "Colombo", Some("LK")) == [Favorite(1, "Colombo", Some("LK"), "Colombo, LK")]
  {
    var colombo := Favorite(1, "Colombo", Some("LK"), "Colombo, LK");
    assert NewFavorite(1, "Colombo", Some("LK")) == colombo;
    assert !HasKey([], "Colombo", Some("LK"));
    assert [colombo] + [] == [colombo];
  }

  lemma ExampleRepeatedAdd()
    ensures var one := [Favorite(1, "Colombo", Some("LK"), "Colombo, LK")];
            AddTo(one, 2, "colombo", Some("LK")) == one
  {
    var colombo := Favorite(1, "Colombo", Some("LK"), "Colombo, LK");
    assert Lower("colombo") == Lower("Colombo");
    assert SameKey(colombo, "colombo", Some("LK"));
    assert [colombo][0] == colombo;
  }

  lemma ExampleSecondCity()
    ensures var one := [Favorite(1, "Colombo", Some("LK"), "Colombo, LK")];
            AddTo(one, 3, "London", Some("GB")) == [Favorite(3, "London", Some("GB"), "London, GB")] + one
  {
    var colombo := Favorite(1, "Colombo", Some("LK"), "Colombo, LK");
    var london := Favorite(3, "London", Some("GB"), "London, GB");
    assert NewFavorite(3, "London", Some("GB")) == london;
    assert !SameKey(colombo, "London", Some("GB"));
    assert !HasKey([colombo], "London", Some("GB"));
  }

  // ---------------------------------------------------------------------
  // The component state

  /** The `favorites` state of the component. `persisted` is the value last
      written to the storage slot; every change rewrites it in full. */
  class FavoritesStore {
    var favorites: seq<Favorite>
    ghost var persisted: seq<Favorite>

    /** Bounded and free of duplicate keys. Data restored from storage need
        not satisfy it, so the methods keep it rather than require it. */
    ghost predicate Valid()
      reads this
    {
      |favorites| <= MaxFavorites && NoDuplicateKeys(favorites)
    }

    /** A fresh component: empty list, and the save effect writes it. */
    constructor ()
      ensures favorites == [] && persisted == [] && Valid()
    {
      favorites := [];
      persisted := [];
    }

    /** `isFavorite`. */
    function IsFavorite(name: string, country: Option<string>): (r: bool)
      reads this
      ensures r <==> exists i :: 0 <= i < |favorites| && SameKey(favorites[i], name, country)
    {
      HasKey(favorites, name, country)
    }

    /** `addToFavorites`, with the entry's id supplied by the caller. */
    method Add(id: int, name: string, country: Option<string>)
      modifies this
      ensures favorites == AddTo(old(favorites), id, name, country)
      ensures persisted == favorites
      ensures old(Valid()) ==> Valid()
      ensures IsFavorite(name, country)
    {
      if Valid() {
        AddBounded(favorites, id, name, country);
        AddPreservesNoDuplicateKeys(favorites, id, name, country);
      }
      AddMakesFavorite(favorites, id, name, country, name);
      favorites := AddTo(favorites, id, name, country);
      persisted := favorites;
    }

    /** `removeFromFavorites`. */
    method Remove(id: int)
      modifies this
      ensures favorites == RemoveFrom(old(favorites), id)
      ensures persisted == favorites
      ensures old(Valid()) ==> Valid()
    {
      if Valid() {
        RemovePreservesNoDuplicateKeys(favorites, id);
        SubsequenceNotLonger(RemoveFrom(favorites, id), favorites);
      }
      favorites := RemoveFrom(favorites, id);
      persisted := favorites;
    }

    /** The click handler of the add/remove button. */
    method Toggle(id: int, name: string, country: Option<string>)
      modifies this
      ensures favorites == Toggled(old(favorites), id, name, country)
      ensures persisted == favorites
      ensures old(Valid()) ==> Valid() && IsFavorite(name, country) == !old(IsFavorite(name, country))
    {
      if Valid() {
        TogglePreservesInvariant(favorites, id, name, country);
        ToggleFlips(favorites, id, name, country);
      }
      var isFav := IsFavorite(name, country);
      if isFav {
        var favorite := FindFavorite(favorites, name, country);
        if favorite.Some? {
          Remove(favorite.value.id);
        }
      } else {
        Add(id, name, country);
      }
    }
  }
}
