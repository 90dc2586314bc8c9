/** Name lists as OBS reports them (`src/obs/validation.rs`). */
module Listings {
  import opened Wrappers
  import opened Names
  import opened Errors

  /** Usable names, none of them twice. Case variants of one name are two different names here. */
  ghost predicate ValidListing(names: seq<string>) {
    && (forall i :: 0 <= i < |names| ==> Usable(names[i]))
    && (forall i, j :: 0 <= i < j < |names| ==> names[i] != names[j])
  }

  ghost predicate DistinctUpToCase(names: seq<string>) {
    forall i, j :: 0 <= i < j < |names| ==> !SameName(names[i], names[j])
  }

  /** Whether some listed name is the same name as `name`. */
  predicate Listed(name: string, names: seq<string>) {
    exists i :: 0 <= i < |names| && SameName(names[i], name)
  }

  /** Validate and trim every reported name, refusing a repeat. */
  method CollectUniqueNames(raw: seq<string>) returns (r: Result<seq<string>, Error>)
    ensures r.Ok? <==>
            && (forall i :: 0 <= i < |raw| ==> CheckedName(raw[i]).Ok?)
            && (forall i, j :: 0 <= i < j < |raw| ==> CheckedName(raw[i]) != CheckedName(raw[j]))
    ensures r.Ok? ==> ValidListing(r.value) && |r.value| == |raw|
    ensures r.Ok? ==> forall i :: 0 <= i < |raw| ==> CheckedName(raw[i]) == Ok(r.value[i])
  {
    var names: seq<string>, seen: set<string> := [], {};
    for i := 0 to |raw|
      invariant |names| == i && seen == set n | n in names
      invariant forall k :: 0 <= k < i ==> CheckedName(raw[k]) == Ok(names[k])
      invariant forall j, k :: 0 <= j < k < i ==> names[j] != names[k]
    {
      var checked := CheckedName(raw[i]);
      if checked.Err? { return Err(ListingInvalid(raw[i])); }
      if checked.value in seen {
        var k :| 0 <= k < i && names[k] == checked.value;
        assert CheckedName(raw[k]) == CheckedName(raw[i]);
        return Err(ListingInvalid(checked.value));
      }
      seen := seen + {checked.value};
      names := names + [checked.value];
    }
    forall i | 0 <= i < |names| ensures Usable(names[i]) {
      assert CheckedName(raw[i]) == Ok(names[i]);
      CheckedIsUsable(raw[i]);
    }
    return Ok(names);
  }
}
