/**
 * Setting values in nested mappings by path, as a function on trees. A path is the list of keys of a dotted
 * path, never empty. `render` gives the text of a mapping, which the comparison with the new value may need.
 */
module DotPaths {
  import opened Options

  datatype Node = Null | Scalar(text: string) | Mapping(entries: map<string, Node>)

  type Path = p: seq<string> | p != [] witness [""]

  type Renderer = map<string, Node> -> string

  datatype Update = Update(path: Path, value: string)

  // ----- dotted paths -----

  function Split(dotted: string): Path {
    if dotted == "" then [""]
    else
      var rest := Split(dotted[1..]);
      if dotted[0] == '.' then [""] + rest else [[dotted[0]] + rest[0]] + rest[1..]
  }

  function Join(path: Path): string
    decreases |path|
  {
    if |path| == 1 then path[0] else path[0] + "." + Join(path[1..])
  }

  /** Splitting loses nothing, so different dotted paths have different key lists. */
  lemma {:induction false} JoinOfSplit(dotted: string)
    ensures Join(Split(dotted)) == dotted
  {
    if dotted != "" {
      JoinOfSplit(dotted[1..]);
      var rest := Split(dotted[1..]);
      if dotted[0] == '.' {
        assert ([""] + rest)[1..] == rest;
      } else {
        assert ([[dotted[0]] + rest[0]] + rest[1..])[1..] == rest[1..];
      }
    }
  }

  lemma {:induction false} SplitAtFirstDot(key: string, rest: string)
    requires '.' !in key
    ensures Split(key + "." + rest) == [key] + Split(rest)
    decreases |key|
  {
    if key == "" {
      assert ("" + "." + rest)[1..] == rest;
    } else {
      var whole := key + "." + rest;
      assert whole[1..] == key[1..] + "." + rest && whole[0] == key[0] && key[0] in key;
      SplitAtFirstDot(key[1..], rest);
      assert ([key[1..]] + Split(rest))[1..] == Split(rest);
      assert [key[0]] + key[1..] == key;
    }
  }

  lemma {:induction false} SplitWithoutDot(key: string)
    requires '.' !in key
    ensures Split(key) == [key]
  {
    if key != "" {
      SplitWithoutDot(key[1..]);
      assert [key[0]] + key[1..] == key;
    }
  }

  /** Splitting finds every dot: it gives back any list of keys without dots that was joined. */
  lemma {:induction false} SplitOfJoin(path: Path)
    requires forall k :: 0 <= k < |path| ==> '.' !in path[k]
    ensures Split(Join(path)) == path
    decreases |path|
  {
    if |path| == 1 {
      SplitWithoutDot(path[0]);
    } else {
      SplitOfJoin(path[1..]);
      SplitAtFirstDot(path[0], Join(path[1..]));
    }
  }

  /** And no key has a dot. */
  lemma {:induction false} KeysHaveNoDot(dotted: string, k: nat)
    requires k < |Split(dotted)|
    ensures '.' !in Split(dotted)[k]
  {
    if dotted != "" {
      var rest := Split(dotted[1..]);
      if dotted[0] == '.' {
        if k > 0 {
          KeysHaveNoDot(dotted[1..], k - 1);
        }
      } else {
        KeysHaveNoDot(dotted[1..], k);
      }
    }
  }

  // ----- trees -----

  /** The node at the path, if every key on the way is there. */
  function Lookup(n: Node, path: seq<string>): Option<Node> {
    if path == [] then Some(n)
    else if n.Mapping? && path[0] in n.entries then Lookup(n.entries[path[0]], path[1..])
    else None
  }

  function Text(render: Renderer, n: Node): string {
    match n
    case Null => "None"
    case Scalar(text) => text
    case Mapping(entries) => render(entries)
  }

  /** The path reads as the value already. */
  predicate Reads(render: Renderer, n: Node, u: Update) {
    var found := Lookup(n, u.path);
    found.Some? && found.value != Null && Text(render, found.value) == u.value
  }

  /** One update; `None` where the walk meets something that is not a mapping, which raises. */
  function Put(render: Renderer, n: Node, path: Path, value: string): Option<Node>
    decreases |path|
  {
    if !n.Mapping? then None
    else
      var key := path[0];
      if |path| == 1 then
        if key in n.entries && n.entries[key] != Null && Text(render, n.entries[key]) == value then Some(n)
        else Some(Mapping(n.entries[key := Scalar(value)]))
      else
        match Put(render, if key in n.entries then n.entries[key] else Mapping(map[]), path[1..], value)
        case Some(child) => Some(Mapping(n.entries[key := child]))
        case None => None
  }

  lemma ReadsOneDown(render: Renderer, n: Node, path: Path, value: string)
    requires n.Mapping?
    ensures |path| == 1 ==>
              (Reads(render, n, Update(path, value)) <==>
               path[0] in n.entries && n.entries[path[0]] != Null && Text(render, n.entries[path[0]]) == value)
    ensures |path| > 1 ==>
              (Reads(render, n, Update(path, value)) <==>
               path[0] in n.entries && Reads(render, n.entries[path[0]], Update(path[1..], value)))
  {
    if |path| == 1 && path[0] in n.entries {
      assert path[1..] == [];
      assert Lookup(n, path) == Lookup(n.entries[path[0]], []) == Some(n.entries[path[0]]);
    }
  }

  lemma {:induction false} PutInEmpty(render: Renderer, path: Path, value: string)
    ensures Put(render, Mapping(map[]), path, value).Some?
    decreases |path|
  {
    if |path| > 1 {
      PutInEmpty(render, path[1..], value);
    }
  }

  /** Whatever lies strictly above the path is a mapping or absent. */
  ghost predicate Passable(n: Node, path: Path) {
    forall k :: 0 <= k < |path| && Lookup(n, path[..k]).Some? ==> Lookup(n, path[..k]).value.Mapping?
  }

  /** Neither path is a prefix of the other. */
  predicate Unrelated(p: seq<string>, q: seq<string>) { !(p <= q) && !(q <= p) }

  // ----- one update -----

  lemma {:induction false} PutSucceedsExactly(render: Renderer, n: Node, path: Path, value: string)
    ensures Put(render, n, path, value).Some? <==> Passable(n, path)
    decreases |path|
  {
    assert path[..0] == [] && Lookup(n, path[..0]) == Some(n);
    if n.Mapping? && |path| > 1 {
      var key, rest := path[0], path[1..];
      var child := if key in n.entries then n.entries[key] else Mapping(map[]);
      PutSucceedsExactly(render, child, rest, value);
      forall k | 0 < k < |path|
        ensures key in n.entries ==> Lookup(n, path[..k]) == Lookup(child, rest[..k - 1])
        ensures key !in n.entries ==> Lookup(n, path[..k]).None?
      {
        assert path[..k][0] == key && path[..k][1..] == rest[..k - 1];
      }
      if key !in n.entries {
        NothingInEmpty(rest);
      }
      if Passable(n, path) {
        forall k | 0 <= k < |rest| && Lookup(child, rest[..k]).Some?
          ensures Lookup(child, rest[..k]).value.Mapping?
        {
          if key in n.entries {
            assert Lookup(n, path[..k + 1]) == Lookup(child, rest[..k]);
          }
        }
      }
      if Passable(child, rest) {
        forall k | 0 <= k < |path| && Lookup(n, path[..k]).Some?
          ensures Lookup(n, path[..k]).value.Mapping?
        {
          if k > 0 && key in n.entries {
            assert Lookup(n, path[..k]) == Lookup(child, rest[..k - 1]);
          }
        }
      }
    }
  }

  lemma NothingInEmpty(path: Path)
    ensures forall k :: 0 <= k < |path| && Lookup(Mapping(map[]), path[..k]).Some? ==> k == 0
  {
  }

  /** The path reads back as the value. */
  lemma {:induction false} PutReadsBack(render: Renderer, n: Node, path: Path, value: string)
    requires Put(render, n, path, value).Some?
    ensures Reads(render, Put(render, n, path, value).value, Update(path, value))
    decreases |path|
  {
    var key := path[0];
    if |path| == 1 {
      assert path[1..] == [];
    } else {
      PutReadsBack(render, if key in n.entries then n.entries[key] else Mapping(map[]), path[1..], value);
    }
  }

  /** An update that reads as the value already changes nothing. */
  lemma {:induction false} PutOfSame(render: Renderer, n: Node, path: Path, value: string)
    requires Reads(render, n, Update(path, value))
    ensures Put(render, n, path, value) == Some(n)
    decreases |path|
  {
    if |path| == 1 {
      assert path[1..] == [];
      assert Lookup(n, path) == Lookup(n.entries[path[0]], []);
    } else {
      PutOfSame(render, n.entries[path[0]], path[1..], value);
      assert n.entries[path[0] := n.entries[path[0]]] == n.entries;
    }
  }

  /** A path unrelated to the updated one reads what it read before. */
  lemma {:induction false} PutFrames(render: Renderer, n: Node, path: Path, value: string, other: seq<string>)
    requires Put(render, n, path, value).Some? && Unrelated(path, other)
    ensures Lookup(Put(render, n, path, value).value, other) == Lookup(n, other)
    decreases |path|
  {
    var key := path[0];
    if other[0] == key {
      assert path == [key] + path[1..] && other == [key] + other[1..];
      assert |path| > 1;
      var child := if key in n.entries then n.entries[key] else Mapping(map[]);
      assert Unrelated(path[1..], other[1..]);
      PutFrames(render, child, path[1..], value, other[1..]);
      assert other[1..] != [];
    }
  }

  lemma PutTouchesOneKey(render: Renderer, n: Node, path: Path, value: string)
    requires Put(render, n, path, value).Some?
    ensures var m := Put(render, n, path, value).value;
            m.Mapping? && path[0] in m.entries && m == Mapping(n.entries[path[0] := m.entries[path[0]]])
  {
    if |path| == 1 && path[0] in n.entries {
      assert n.entries[path[0] := n.entries[path[0]]] == n.entries;
    }
  }

  /** What happens under a key depends only on what is there. */
  lemma PutIsLocal(render: Renderer, n: Node, n': Node, path: Path, value: string)
    requires n.Mapping? && n'.Mapping? && (path[0] in n.entries <==> path[0] in n'.entries)
    requires path[0] in n.entries ==> n.entries[path[0]] == n'.entries[path[0]]
    requires Put(render, n, path, value).Some?
    ensures Put(render, n', path, value).Some?
    ensures var m, m' := Put(render, n, path, value).value, Put(render, n', path, value).value;
            m.Mapping? && m'.Mapping? && path[0] in m.entries && path[0] in m'.entries
            && m.entries[path[0]] == m'.entries[path[0]]
  {
  }

  lemma PutsUnderTwoKeys(render: Renderer, n: Node, p: Path, v: string, q: Path, w: string)
    requires p[0] != q[0] && Put(render, n, p, v).Some? && Put(render, n, q, w).Some?
    ensures Put(render, Put(render, n, p, v).value, q, w).Some?
    ensures Put(render, Put(render, n, p, v).value, q, w) == Put(render, Put(render, n, q, w).value, p, v)
  {
    var a, b := Put(render, n, p, v).value, Put(render, n, q, w).value;
    PutTouchesOneKey(render, n, p, v);
    PutTouchesOneKey(render, n, q, w);
    PutIsLocal(render, n, a, q, w);
    PutIsLocal(render, n, b, p, v);
    PutTouchesOneKey(render, a, q, w);
    PutTouchesOneKey(render, b, p, v);
    var x, y := a.entries[p[0]], b.entries[q[0]];
    assert n.entries[p[0] := x][q[0] := y] == n.entries[q[0] := y][p[0] := x];
  }

  /** Updates of unrelated paths can be made in either order. */
  lemma {:induction false} PutsCommute(render: Renderer, n: Node, p: Path, v: string, q: Path, w: string)
    requires Unrelated(p, q) && Put(render, n, p, v).Some? && Put(render, n, q, w).Some?
    ensures Put(render, Put(render, n, p, v).value, q, w).Some?
    ensures Put(render, Put(render, n, p, v).value, q, w) == Put(render, Put(render, n, q, w).value, p, v)
    decreases |p|
  {
    var k := p[0];
    if k != q[0] {
      PutsUnderTwoKeys(render, n, p, v, q, w);
    } else {
      var a, b := Put(render, n, p, v).value, Put(render, n, q, w).value;
      assert p == [k] + p[1..] && q == [k] + q[1..];
      assert |p| > 1 && |q| > 1;
      assert Unrelated(p[1..], q[1..]);
      var child := if k in n.entries then n.entries[k] else Mapping(map[]);
      PutsCommute(render, child, p[1..], v, q[1..], w);
      var ab := Put(render, Put(render, child, p[1..], v).value, q[1..], w).value;
      assert Put(render, a, q, w).value.entries == n.entries[k := ab];
      assert Put(render, b, p, v).value.entries == n.entries[k := ab];
    }
  }

  // ----- a whole set of updates -----

  ghost predicate PrefixFree(us: seq<Update>) {
    forall i, j :: 0 <= i < j < |us| ==> Unrelated(us[i].path, us[j].path)
  }

  ghost predicate AllPassable(n: Node, us: seq<Update>) {
    forall i :: 0 <= i < |us| ==> Passable(n, us[i].path)
  }

  /** All updates in order; the first that raises ends it. */
  function PutAll(render: Renderer, n: Node, us: seq<Update>): Option<Node>
    decreases |us|
  {
    if us == [] then Some(n)
    else
      match Put(render, n, us[0].path, us[0].value)
      case Some(m) => PutAll(render, m, us[1..])
      case None => None
  }

  lemma PutKeepsPassable(render: Renderer, n: Node, u: Update, us: seq<Update>)
    requires Passable(n, u.path) && AllPassable(n, us) && forall i :: 0 <= i < |us| ==> Unrelated(u.path, us[i].path)
    ensures Put(render, n, u.path, u.value).Some?
    ensures AllPassable(Put(render, n, u.path, u.value).value, us)
  {
    PutSucceedsExactly(render, n, u.path, u.value);
    forall i | 0 <= i < |us|
      ensures Passable(Put(render, n, u.path, u.value).value, us[i].path)
    {
      PutSucceedsExactly(render, n, us[i].path, us[i].value);
      PutsCommute(render, n, u.path, u.value, us[i].path, us[i].value);
      PutSucceedsExactly(render, Put(render, n, u.path, u.value).value, us[i].path, us[i].value);
    }
  }

  /** Prefix-free paths that pass only through mappings never raise. */
  lemma {:induction false} PutAllSucceeds(render: Renderer, n: Node, us: seq<Update>)
    requires PrefixFree(us) && AllPassable(n, us)
    ensures PutAll(render, n, us).Some?
    decreases |us|
  {
    if us != [] {
      PutKeepsPassable(render, n, us[0], us[1..]);
      PutAllSucceeds(render, Put(render, n, us[0].path, us[0].value).value, us[1..]);
    }
  }

  /** A path unrelated to all updated ones reads what it read before. */
  lemma {:induction false} PutAllFrames(render: Renderer, n: Node, us: seq<Update>, other: seq<string>)
    requires PutAll(render, n, us).Some? && forall i :: 0 <= i < |us| ==> Unrelated(us[i].path, other)
    ensures Lookup(PutAll(render, n, us).value, other) == Lookup(n, other)
    decreases |us|
  {
    if us != [] {
      PutFrames(render, n, us[0].path, us[0].value, other);
      PutAllFrames(render, Put(render, n, us[0].path, us[0].value).value, us[1..], other);
    }
  }

  /** Afterwards every path reads back as its value. */
  lemma {:induction false} PutAllReadsBack(render: Renderer, n: Node, us: seq<Update>, i: nat)
    requires PrefixFree(us) && PutAll(render, n, us).Some? && i < |us|
    ensures Reads(render, PutAll(render, n, us).value, us[i])
    decreases |us|
  {
    var m := Put(render, n, us[0].path, us[0].value).value;
    if i == 0 {
      PutReadsBack(render, n, us[0].path, us[0].value);
      forall j | 0 <= j < |us[1..]|
        ensures Unrelated(us[1..][j].path, us[0].path)
      {
        assert Unrelated(us[0].path, us[j + 1].path);
      }
      PutAllFrames(render, m, us[1..], us[0].path);
    } else {
      PutAllReadsBack(render, m, us[1..], i - 1);
    }
  }

  /** Updates that all read back already change nothing: a second application is idle. */
  lemma {:induction false} PutAllOfSame(render: Renderer, n: Node, us: seq<Update>)
    requires forall i :: 0 <= i < |us| ==> Reads(render, n, us[i])
    ensures PutAll(render, n, us) == Some(n)
    decreases |us|
  {
    if us != [] {
      PutOfSame(render, n, us[0].path, us[0].value);
      PutAllOfSame(render, n, us[1..]);
    }
  }

  /** Some update, when its turn comes, does not read as its value yet. */
  predicate Changes(render: Renderer, n: Node, us: seq<Update>)
    decreases |us|
  {
    us != [] &&
    (!Reads(render, n, us[0]) ||
     (Put(render, n, us[0].path, us[0].value).Some? &&
      Changes(render, Put(render, n, us[0].path, us[0].value).value, us[1..])))
  }

  /** For prefix-free updates the result says exactly whether some path differed beforehand. */
  lemma {:induction false} ChangesExactly(render: Renderer, n: Node, us: seq<Update>)
    requires PrefixFree(us) && AllPassable(n, us)
    ensures Changes(render, n, us) <==> exists i :: 0 <= i < |us| && !Reads(render, n, us[i])
    decreases |us|
  {
    if us != [] {
      var u, rest := us[0], us[1..];
      PutKeepsPassable(render, n, u, rest);
      var m := Put(render, n, u.path, u.value).value;
      ChangesExactly(render, m, rest);
      forall i | 0 <= i < |rest|
        ensures Reads(render, m, rest[i]) <==> Reads(render, n, us[i + 1])
      {
        assert Unrelated(us[0].path, us[i + 1].path);
        PutFrames(render, n, u.path, u.value, rest[i].path);
      }
    }
  }

  /** A second application of prefix-free updates reports no change and makes none. */
  lemma SecondApplicationIsIdle(render: Renderer, n: Node, us: seq<Update>)
    requires PrefixFree(us) && AllPassable(n, us)
    ensures var m := PutAll(render, n, us);
            m.Some? && PutAll(render, m.value, us) == m && !Changes(render, m.value, us)
  {
    PutAllSucceeds(render, n, us);
    var m := PutAll(render, n, us).value;
    forall i | 0 <= i < |us|
      ensures Reads(render, m, us[i])
    {
      PutAllReadsBack(render, n, us, i);
    }
    PutAllOfSame(render, m, us);
    SameIsNoChange(render, m, us);
  }

  lemma {:induction false} SameIsNoChange(render: Renderer, n: Node, us: seq<Update>)
    requires forall i :: 0 <= i < |us| ==> Reads(render, n, us[i])
    ensures !Changes(render, n, us)
    decreases |us|
  {
    if us != [] {
      PutOfSame(render, n, us[0].path, us[0].value);
      SameIsNoChange(render, n, us[1..]);
    }
  }

  // ----- order -----

  function Without(us: seq<Update>, i: nat): seq<Update>
    requires i < |us|
  {
    us[..i] + us[i + 1..]
  }

  lemma PutFirst(render: Renderer, n: Node, u: Update, rest: seq<Update>)
    ensures var r := Put(render, n, u.path, u.value);
            PutAll(render, n, [u] + rest) == if r.Some? then PutAll(render, r.value, rest) else None
  {
    assert ([u] + rest)[1..] == rest;
  }

  lemma {:induction false} MoveToFront(render: Renderer, n: Node, us: seq<Update>, i: nat)
    requires PrefixFree(us) && AllPassable(n, us) && i < |us|
    ensures PutAll(render, n, us) == PutAll(render, n, [us[i]] + Without(us, i))
    decreases i
  {
    if i == 0 {
      assert [us[0]] + Without(us, 0) == us;
    } else {
      var u, rest := us[0], us[1..];
      PutKeepsPassable(render, n, u, rest);
      PutSucceedsExactly(render, n, us[i].path, us[i].value);
      var m, l := Put(render, n, u.path, u.value).value, Put(render, n, us[i].path, us[i].value).value;
      MoveToFront(render, m, rest, i - 1);
      PutsCommute(render, n, u.path, u.value, us[i].path, us[i].value);
      var tail := Without(rest, i - 1);
      assert us == [u] + rest && rest[i - 1] == us[i] && Without(us, i) == [u] + tail;
      PutFirst(render, n, u, rest);
      PutFirst(render, m, us[i], tail);
      PutFirst(render, n, us[i], Without(us, i));
      PutFirst(render, l, u, tail);
    }
  }

  lemma SameWithout(us: seq<Update>, vs: seq<Update>, i: nat)
    requires us != [] && i < |vs| && vs[i] == us[0] && multiset(us) == multiset(vs)
    ensures multiset(us[1..]) == multiset(Without(vs, i))
  {
    assert us == [us[0]] + us[1..];
    assert multiset(us) == multiset{us[0]} + multiset(us[1..]);
    assert vs == vs[..i] + [vs[i]] + vs[i + 1..];
    assert multiset(vs) == multiset(vs[..i]) + multiset{vs[i]} + multiset(vs[i + 1..]);
    assert multiset(Without(vs, i)) == multiset(vs[..i]) + multiset(vs[i + 1..]);
    assert multiset(us[1..]) == multiset(us) - multiset{us[0]};
    assert multiset(Without(vs, i)) == multiset(vs) - multiset{vs[i]};
  }

  lemma FewerIsFine(n: Node, vs: seq<Update>, i: nat)
    requires PrefixFree(vs) && AllPassable(n, vs) && i < |vs|
    ensures PrefixFree(Without(vs, i)) && AllPassable(n, Without(vs, i))
    ensures forall j :: 0 <= j < |Without(vs, i)| ==> Unrelated(vs[i].path, Without(vs, i)[j].path)
  {
    var fewer := Without(vs, i);
    assert forall j :: 0 <= j < |fewer| ==> fewer[j] == if j < i then vs[j] else vs[j + 1];
  }

  /** The order of prefix-free updates does not matter. */
  lemma {:induction false} OrderDoesNotMatter(render: Renderer, n: Node, us: seq<Update>, vs: seq<Update>)
    requires PrefixFree(us) && PrefixFree(vs) && multiset(us) == multiset(vs) && AllPassable(n, us) && AllPassable(n, vs)
    ensures PutAll(render, n, us) == PutAll(render, n, vs)
    decreases |us|
  {
    if us == [] {
      assert |vs| == |multiset(vs)| == 0;
    } else {
      assert us[0] in multiset(vs);
      var i :| 0 <= i < |vs| && vs[i] == us[0];
      MoveToFront(render, n, vs, i);
      var fewer := Without(vs, i);
      assert ([vs[i]] + fewer)[1..] == fewer;
      SameWithout(us, vs, i);
      FewerIsFine(n, vs, i);
      PutKeepsPassable(render, n, us[0], us[1..]);
      PutKeepsPassable(render, n, vs[i], fewer);
      OrderDoesNotMatter(render, Put(render, n, us[0].path, us[0].value).value, us[1..], fewer);
    }
  }
}
