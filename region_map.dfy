/** The region name -> region code dictionary, filled by a loop over the parallel
    `State` and `State_code` columns and then indexed with the selected name. */
module RegionMap {
  import opened Wrappers

  /** The dictionary the loop holds after assigning entries 0..|names|-1, each assignment
      overwriting an earlier one for the same name. */
  function MappingOf(names: seq<string>, codes: seq<string>): map<string, string>
    requires |names| <= |codes|
  {
    if |names| == 0 then map[]
    else MappingOf(names[..|names| - 1], codes)[names[|names| - 1] := codes[|names| - 1]]
  }

  /** The position of the last occurrence of `name` in `names`, if any. */
  function LastIndex(names: seq<string>, name: string): (r: Option<nat>)
    ensures r.None? <==> name !in names
    ensures r.Some? ==> r.value < |names| && names[r.value] == name &&
                        forall j :: r.value < j < |names| ==> names[j] != name
  {
    if |names| == 0 then None
    else if names[|names| - 1] == name then Some(|names| - 1)
    else LastIndex(names[..|names| - 1], name)
  }

  /** After the loop the keys are exactly the names, and each name maps to the code at its
      last occurrence. */
  lemma {:induction false} MappingOfSpec(names: seq<string>, codes: seq<string>)
    requires |names| <= |codes|
    ensures forall name :: name in MappingOf(names, codes) <==> name in names
    ensures forall name :: name in names ==> MappingOf(names, codes)[name] == codes[LastIndex(names, name).value]
  {
    if |names| > 0 {
      var p := names[..|names| - 1];
      MappingOfSpec(p, codes);
      assert names == p + [names[|names| - 1]];
      forall name | name in names ensures MappingOf(names, codes)[name] == codes[LastIndex(names, name).value] {
        if name != names[|names| - 1] {
          assert name in p;
        }
      }
    }
  }

  /** The loop `for i in range(len(names)): mapping[names[i]] = codes[i]`: it fails with an
      IndexError when the codes run out before the names do, and otherwise returns the
      dictionary MappingOf describes. */
  method BuildMapping(names: seq<string>, codes: seq<string>) returns (r: Result<map<string, string>>)
    ensures r.Err? <==> |codes| < |names|
    ensures r.Err? ==> r.error == IndexError
    ensures r.Ok? ==> |names| <= |codes| && r.value == MappingOf(names, codes)
  {
    var mapping: map<string, string> := map[];
    var i := 0;
    while i < |names|
      invariant i <= |names| && i <= |codes|
      invariant mapping == MappingOf(names[..i], codes)
    {
      if i >= |codes| {
        return Err(IndexError);
      }
      assert names[..i + 1][..i] == names[..i];
      mapping := mapping[names[i] := codes[i]];
      i := i + 1;
    }
    assert names[..i] == names;
    return Ok(mapping);
  }

  /** `mapping[name]`: the code, or a KeyError naming the missing key (never a default code). */
  function Lookup(mapping: map<string, string>, name: string): (r: Result<string>)
    ensures r.Ok? <==> name in mapping
    ensures r.Ok? ==> r.value == mapping[name]
    ensures r.Err? ==> r.error == KeyError(name)
  {
    if name in mapping then Ok(mapping[name]) else Err(KeyError(name))
  }

  /** Looking a name up in the built dictionary succeeds exactly for the names of the table,
      with the code of the name's last row; any other name is a KeyError. */
  lemma LookupBuilt(names: seq<string>, codes: seq<string>, name: string)
    requires |names| <= |codes|
    ensures Lookup(MappingOf(names, codes), name).Ok? <==> name in names
    ensures name in names ==> Lookup(MappingOf(names, codes), name).value == codes[LastIndex(names, name).value]
    ensures name !in names ==> Lookup(MappingOf(names, codes), name) == Err(KeyError(name))
  {
    MappingOfSpec(names, codes);
  }
}
