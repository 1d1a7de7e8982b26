/** The update in place: nested dictionaries on the heap, created and assigned while walking down a path. */
module Documents {
  import opened DotPaths

  lemma OneEntry<V>(before: map<string, V>, after: map<string, V>, key: string, value: V)
    requires after.Keys == before.Keys + {key} && after[key] == value
    requires forall k :: k in before && k != key ==> after[k] == before[k]
    ensures after == before[key := value]
  {
  }

  datatype Item = NullItem | Value(text: string) | Sub(dict: Dict)

  class Dict {
    var entries: map<string, Item>
    ghost var repr: set<Dict>

    /** The dictionaries reachable from here form a tree. */
    ghost predicate Valid()
      reads this, repr
      decreases repr
    {
      && this in repr
      && (forall k :: k in entries && entries[k].Sub? ==>
            && entries[k].dict in repr && entries[k].dict.repr <= repr && this !in entries[k].dict.repr
            && entries[k].dict.Valid())
      && (forall j, k :: j in entries && k in entries && j != k && entries[j].Sub? && entries[k].Sub? ==>
            entries[j].dict.repr !! entries[k].dict.repr)
    }

    function View(): map<string, Node>
      requires Valid()
      reads this, repr
      decreases repr
    {
      map k | k in entries ::
        match entries[k]
        case NullItem => Null
        case Value(text) => Scalar(text)
        case Sub(d) => Mapping(d.View())
    }

    constructor ()
      ensures Valid() && fresh(repr) && View() == map[]
    {
      entries := map[];
      repr := {this};
    }

    method Assign(key: string, value: string)
      requires Valid()
      modifies this
      ensures Valid() && repr == old(repr)
      ensures View() == old(View())[key := Scalar(value)]
    {
      entries := entries[key := Value(value)];
    }

    /** Links a fresh empty dictionary under a key that is not there yet. */
    method MakeSub(key: string) returns (d: Dict)
      requires Valid() && key !in entries
      modifies this
      ensures Valid() && fresh(repr - old(repr)) && key in entries && entries[key] == Sub(d)
      ensures View() == old(View())[key := Mapping(map[])]
    {
      d := new Dict();
      entries := entries[key := Sub(d)];
      repr := repr + d.repr;
      OneEntry(old(View()), View(), key, Mapping(map[]));
    }

    method Put(render: Renderer, keys: Path, value: string) returns (ok: bool, changed: bool)
      requires Valid()
      modifies repr
      ensures Valid() && fresh(repr - old(repr))
      ensures var r := DotPaths.Put(render, Mapping(old(View())), keys, value);
              ok == r.Some? && View() == if ok then r.value.entries else old(View())
      ensures changed == (ok && !Reads(render, Mapping(old(View())), Update(keys, value)))
      decreases |keys|, 0
    {
      var key := keys[0];
      ReadsOneDown(render, Mapping(View()), keys, value);
      if |keys| == 1 {
        if key in entries && entries[key] != NullItem && Text(render, View()[key]) == value {
          return true, false;
        }
        Assign(key, value);
        return true, true;
      }
      if key !in entries {
        var made := MakeSub(key);
        PutInEmpty(render, keys[1..], value);
      }
      if !entries[key].Sub? {
        return false, false;
      }
      ok, changed := PutBelow(render, key, keys[1..], value);
    }

    /** Descends into the dictionary under the key; its siblings are not touched. */
    method PutBelow(render: Renderer, key: string, rest: Path, value: string) returns (ok: bool, changed: bool)
      requires Valid() && key in entries && entries[key].Sub?
      modifies repr
      ensures Valid() && fresh(repr - old(repr))
      ensures var r := DotPaths.Put(render, old(View())[key], rest, value);
              ok == r.Some? && View() == if ok then old(View())[key := r.value] else old(View())
      ensures changed == (ok && !Reads(render, old(View())[key], Update(rest, value)))
      decreases |rest|, 1
    {
      var d := entries[key].dict;
      ok, changed := d.Put(render, rest, value);
      repr := repr + d.repr;
      OneEntry(old(View()), View(), key, Mapping(d.View()));
    }
  }

  /**
   * All updates in order, in place. An update that raises ends the loop with the ones before it made;
   * otherwise the result tells whether some value was assigned.
   */
  method ApplyDotPathUpdates(render: Renderer, data: Dict, us: seq<Update>) returns (ok: bool, changed: bool)
    requires data.Valid()
    modifies data.repr
    ensures data.Valid() && fresh(data.repr - old(data.repr))
    ensures var r := PutAll(render, Mapping(old(data.View())), us);
            ok == r.Some? && (ok ==> Mapping(data.View()) == r.value)
    ensures ok ==> changed == Changes(render, Mapping(old(data.View())), us)
  {
    changed := false;
    ghost var before := Mapping(data.View());
    for k := 0 to |us|
      invariant data.Valid() && fresh(data.repr - old(data.repr))
      invariant PutAll(render, before, us) == PutAll(render, Mapping(data.View()), us[k..])
      invariant Changes(render, before, us) == (changed || Changes(render, Mapping(data.View()), us[k..]))
    {
      assert us[k..][0] == us[k] && us[k..][1..] == us[k + 1..];
      var wrote;
      ok, wrote := data.Put(render, us[k].path, us[k].value);
      if !ok {
        return;
      }
      changed := changed || wrote;
    }
    ok := true;
  }
}
