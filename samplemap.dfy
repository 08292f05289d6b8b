/** The sample map: compound name -> its (label, sample id) pairs. It is a
    Python dict, so iterating it visits keys in the order they were first
    inserted; `keys` records that order. */
module SampleMaps {
  import opened Results

  datatype SampleMap = SampleMap(keys: seq<string>, entries: map<string, seq<Pair>>)
  {
    /** Every key once, and exactly the keys of `entries`. */
    ghost predicate Valid()
    {
      && Distinct(keys)
      && (forall k :: k in entries <==> k in keys)
    }

    /** `d[name] = v`: a new key goes last, an existing key keeps its place,
        every other entry is unchanged. */
    function Set(name: string, v: seq<Pair>): (d: SampleMap)
      requires Valid()
      ensures d.Valid()
      ensures name in d.entries && d.entries[name] == v
      ensures forall k :: k != name ==> (k in d.entries <==> k in entries)
      ensures forall k :: k != name && k in entries ==> d.entries[k] == entries[k]
      ensures name in entries ==> d.keys == keys
      ensures name !in entries ==> d.keys == keys + [name]
    {
      SampleMap(if name in entries then keys else keys + [name], entries[name := v])
    }
  }

  /** `{}` */
  const Empty: SampleMap := SampleMap([], map[])

  predicate Distinct(s: seq<string>)
  {
    forall i, j :: 0 <= i < j < |s| ==> s[i] != s[j]
  }

  /** The order in which a dict sees its keys when they are assigned in the
      order of `names`: each name at its first occurrence. */
  function FirstOccurrences(names: seq<string>): (r: seq<string>)
    ensures Distinct(r)
    ensures forall x :: x in r <==> x in names
  {
    if names == [] then []
    else
      var init := names[..|names| - 1];
      assert names == init + [names[|names| - 1]];
      var d := FirstOccurrences(init);
      if names[|names| - 1] in d then d else d + [names[|names| - 1]]
  }

  /** Without repeated names, the keys come out in the input order. */
  lemma {:induction false} FirstOccurrencesOfDistinct(names: seq<string>)
    requires Distinct(names)
    ensures FirstOccurrences(names) == names
  {
    if names != [] {
      var init := names[..|names| - 1];
      assert names == init + [names[|names| - 1]];
      assert Distinct(init);
      FirstOccurrencesOfDistinct(init);
      assert names[|names| - 1] !in init;
    }
  }
}
