/** The label tree (label/parser.go) and the key filter in front of it
    (label/traefik.go). */
module LabelTrie {
  import opened Text
  import opened Sorting
  import opened TunnelStore

  type Path = seq<string>

  datatype Node = Node(name: string, value: string, children: seq<Node>)

  /* ---- Keys and their segments ---- */

  /** How one dotted segment is cut: before its first bracket when it ends in one. */
  function Cut(v: string): Option<Path> {
    if v == "" || v[0] == '[' then None
    else if v[|v| - 1] == ']' then
      var i := IndexOf(v, '[');
      if i < 0 then None else Some([v[..i], v[i..]])
    else Some([v])
  }

  /** The parts of a key, or nothing when a segment is refused. */
  function CutAll(split: seq<string>): Option<Path> {
    if split == [] then Some([])
    else
      var head, tail := Cut(split[0]), CutAll(split[1..]);
      if head.Some? && tail.Some? then Some(head.value + tail.value) else None
  }

  function PathOf(key: string): Option<Path> {
    CutAll(Split(key, '.'))
  }

  predicate Acceptable(key: string, root: string) {
    Split(key, '.')[0] == root && PathOf(key).Some?
  }

  /** The inverse: parts joined by dots, except before a bracket. */
  function Glue(path: Path): string {
    if path == [] then ""
    else if |path| == 1 then path[0]
    else path[0] + (if path[1] != "" && path[1][0] == '[' then "" else ".") + Glue(path[1..])
  }

  /** A part of a path: it starts a segment unless it begins with a bracket. */
  ghost predicate Parts(path: Path) {
    (forall i :: 0 <= i < |path| ==> path[i] != "") && (path != [] ==> path[0][0] != '[')
  }

  lemma CutParts(v: string)
    requires Cut(v).Some?
    ensures Parts(Cut(v).value) && Cut(v).value != [] && Glue(Cut(v).value) == v
  {
    var i := IndexOf(v, '[');
    if v[|v| - 1] == ']' {
      assert v == v[..i] + v[i..];
      assert Cut(v).value[1..] == [v[i..]];
    }
  }

  lemma {:induction false} GlueConcat(a: Path, b: Path)
    requires a != [] && b != [] && Parts(b)
    ensures Glue(a + b) == Glue(a) + "." + Glue(b)
  {
    if |a| == 1 {
      assert (a + b)[1..] == b;
    } else {
      GlueConcat(a[1..], b);
      assert (a + b)[1..] == a[1..] + b;
    }
  }

  lemma {:induction false} CutAllGlues(split: seq<string>)
    requires split != [] && CutAll(split).Some?
    ensures Parts(CutAll(split).value) && CutAll(split).value != [] && Glue(CutAll(split).value) == Join(split, '.')
  {
    CutParts(split[0]);
    if |split| > 1 {
      CutAllGlues(split[1..]);
      GlueConcat(Cut(split[0]).value, CutAll(split[1..]).value);
    } else {
      assert CutAll(split[1..]).value == [];
      assert Cut(split[0]).value + [] == Cut(split[0]).value;
    }
  }

  /** Cutting a key loses nothing. */
  lemma PathRoundTrip(key: string)
    requires PathOf(key).Some?
    ensures PathOf(key).value != [] && Parts(PathOf(key).value) && Glue(PathOf(key).value) == key
  {
    CutAllGlues(Split(key, '.'));
  }

  /** The parts of a key that is not refused. */
  function PathFor(key: string): (p: Path)
    ensures p != []
    ensures PathOf(key).Some? ==> p == PathOf(key).value && Parts(p) && Glue(p) == key
  {
    if PathOf(key).Some? then PathRoundTrip(key); PathOf(key).value else [key]
  }

  function Fold(path: Path): Path {
    seq(|path|, i requires 0 <= i < |path| => Lower(path[i]))
  }

  lemma {:induction false} GlueFold(path: Path)
    ensures Glue(Fold(path)) == Lower(Glue(path))
  {
    if |path| > 1 {
      GlueFold(path[1..]);
      assert Fold(path)[1..] == Fold(path[1..]);
      var sep := if path[1] != "" && path[1][0] == '[' then "" else ".";
      LowerConcat(path[0] + sep, Glue(path[1..]));
      LowerConcat(path[0], sep);
      assert Lower(sep) == sep;
      assert path[1] != "" ==> (Lower(path[1])[0] == '[' <==> path[1][0] == '[');
    }
  }

  lemma {:induction false} CutAllFold(split: seq<string>)
    ensures CutAll(split).Some? <==> CutAll(Fold(split)).Some?
    ensures CutAll(split).Some? ==> CutAll(Fold(split)).value == Fold(CutAll(split).value)
  {
    if split != [] {
      CutFold(split[0]);
      CutAllFold(split[1..]);
      assert Fold(split)[1..] == Fold(split[1..]);
      assert Fold(split)[0] == Lower(split[0]);
      if CutAll(split).Some? {
        FoldConcat(Cut(split[0]).value, CutAll(split[1..]).value);
      }
    }
  }

  lemma FoldConcat(a: Path, b: Path)
    ensures Fold(a + b) == Fold(a) + Fold(b)
  {
  }

  lemma LowerCut(v: string, i: int)
    requires -1 <= i < |v|
    ensures i >= 0 ==> [Lower(v)[..i], Lower(v)[i..]] == Fold([v[..i], v[i..]])
  {
    if i >= 0 {
      assert Lower(v)[..i] == Lower(v[..i]) && Lower(v)[i..] == Lower(v[i..]);
    }
  }

  lemma CutFold(v: string)
    ensures Cut(v).Some? <==> Cut(Lower(v)).Some?
    ensures Cut(v).Some? ==> Cut(Lower(v)).value == Fold(Cut(v).value)
  {
    IndexFold(v, '[');
    if v != "" {
      assert Lower(v)[0] == '[' <==> v[0] == '[';
      assert Lower(v)[|v| - 1] == ']' <==> v[|v| - 1] == ']';
      if v[0] != '[' && v[|v| - 1] == ']' {
        LowerCut(v, IndexOf(v, '['));
      } else {
        assert v[0] != '[' ==> Fold([v]) == [Lower(v)];
      }
    }
  }

  lemma IndexFold(v: string, c: char)
    requires LowerChar(c) == c && !('a' <= c <= 'z')
    ensures IndexOf(Lower(v), c) == IndexOf(v, c)
  {
    var i, j := IndexOf(v, c), IndexOf(Lower(v), c);
    assert forall k :: 0 <= k < |v| ==> (Lower(v)[k] == c <==> v[k] == c);
    if i >= 0 {
      assert Lower(v)[i] == c;
    }
    if j >= 0 {
      assert v[j] == c;
    }
    assert forall k :: 0 <= k < i ==> v[k] == v[..i][k];
    assert forall k :: 0 <= k < j ==> Lower(v)[k] == Lower(v)[..j][k];
  }

  /** Two keys lead to the same node exactly when they are equal up to case. */
  lemma SamePathIffSameKey(a: string, b: string)
    requires PathOf(a).Some? && PathOf(b).Some?
    ensures Fold(PathOf(a).value) == Fold(PathOf(b).value) <==> Lower(a) == Lower(b)
  {
    PathRoundTrip(a);
    PathRoundTrip(b);
    GlueFold(PathOf(a).value);
    GlueFold(PathOf(b).value);
    if Lower(a) == Lower(b) {
      SplitFold(a);
      SplitFold(b);
      CutAllFold(Split(a, '.'));
      CutAllFold(Split(b, '.'));
    }
  }

  lemma {:induction false} JoinFold(parts: seq<string>)
    ensures Join(Fold(parts), '.') == Lower(Join(parts, '.'))
  {
    if |parts| > 1 {
      JoinFold(parts[1..]);
      assert Fold(parts)[1..] == Fold(parts[1..]);
      LowerConcat(parts[0] + ".", Join(parts[1..], '.'));
      LowerConcat(parts[0], ".");
      assert Lower(".") == ".";
    }
  }

  lemma SplitFold(key: string)
    ensures Split(Lower(key), '.') == Fold(Split(key, '.'))
  {
    var parts := Split(key, '.');
    JoinFold(parts);
    forall i | 0 <= i < |parts| ensures '.' !in Fold(parts)[i] {
      assert parts[i] in parts;
      IndexFold(parts[i], '.');
    }
    SplitJoin(Fold(parts), '.');
  }

  /* ---- The tree ---- */

  /** containsNode: the first child with this name, up to case. */
  function Find(children: seq<Node>, name: string): (i: int)
    ensures -1 <= i < |children|
    ensures i >= 0 ==> Lower(children[i].name) == Lower(name)
    ensures forall j :: 0 <= j < (if i < 0 then |children| else i) ==> Lower(children[j].name) != Lower(name)
  {
    if children == [] then -1
    else if Lower(children[0].name) == Lower(name) then 0
    else
      var i := Find(children[1..], name);
      if i == -1 then -1 else i + 1
  }

  /** decodeToNode. */
  function Insert(n: Node, path: Path, value: string): Node
    requires path != []
    decreases |path|
  {
    var name := if n.name == "" then path[0] else n.name;
    if |path| == 1 then Node(name, value, n.children)
    else
      var i := Find(n.children, path[1]);
      if i == -1 then Node(name, n.value, n.children + [Insert(Node(path[1], "", []), path[1..], value)])
      else Node(name, n.value, n.children[i := Insert(n.children[i], path[1..], value)])
  }

  /** Sibling names are non-empty and pairwise distinct up to case. */
  ghost predicate WellFormed(n: Node) {
    && (forall i :: 0 <= i < |n.children| ==> n.children[i].name != "" && WellFormed(n.children[i]))
    && (forall i, j :: 0 <= i < j < |n.children| ==> Lower(n.children[i].name) != Lower(n.children[j].name))
  }

  lemma {:induction false} InsertWellFormed(n: Node, path: Path, value: string)
    requires path != [] && WellFormed(n) && forall i :: 0 <= i < |path| ==> path[i] != ""
    ensures WellFormed(Insert(n, path, value))
    ensures Insert(n, path, value).name == if n.name == "" then path[0] else n.name
    decreases |path|
  {
    if |path| > 1 {
      var i := Find(n.children, path[1]);
      var child := if i == -1 then Node(path[1], "", []) else n.children[i];
      InsertWellFormed(child, path[1..], value);
    }
  }

  /** The value at the end of a walk along names, up to case; empty when there is
      no such node. The first name is the root's. */
  function ValueAt(n: Node, path: Path): string
    requires path != []
    decreases |path|
  {
    if |path| == 1 then n.value
    else
      var i := Find(n.children, path[1]);
      if i == -1 then "" else ValueAt(n.children[i], path[1..])
  }

  lemma FindAfterAppend(children: seq<Node>, c: Node, name: string)
    ensures Find(children + [c], name) ==
            if Find(children, name) != -1 then Find(children, name)
            else if Lower(c.name) == Lower(name) then |children| else -1
  {
    var more := children + [c];
    var i, j := Find(children, name), Find(more, name);
    assert forall k :: 0 <= k < |children| ==> more[k] == children[k];
    assert more[|children|] == c;
  }

  lemma FindAfterUpdate(children: seq<Node>, k: nat, c: Node, name: string)
    requires k < |children| && c.name == children[k].name
    ensures Find(children[k := c], name) == Find(children, name)
  {
    var after := children[k := c];
    var i, j := Find(children, name), Find(after, name);
    assert forall m :: 0 <= m < |children| ==> after[m].name == children[m].name;
  }

  lemma {:induction false} ValueInFresh(name: string, q: Path)
    requires q != []
    ensures ValueAt(Node(name, "", []), q) == ""
  {
  }

  lemma FoldTail(p: Path, q: Path)
    requires |p| > 1 && |q| > 1
    ensures Fold(p[1..]) == Fold(q[1..]) <==> Lower(p[1]) == Lower(q[1]) && Fold(p[1..][1..]) == Fold(q[1..][1..])
  {
    var a, b := p[1..], q[1..];
    assert Fold(a) == [Lower(a[0])] + Fold(a[1..]);
    assert Fold(b) == [Lower(b[0])] + Fold(b[1..]);
    if Fold(a) == Fold(b) {
      assert Fold(a)[0] == Fold(b)[0] && Fold(a)[1..] == Fold(b)[1..];
    }
  }

  lemma FoldLength(p: Path, q: Path)
    requires Fold(p) == Fold(q)
    ensures |p| == |q|
  {
    assert |Fold(p)| == |Fold(q)|;
  }

  /** An insertion is seen at its own path, up to case, and nowhere else. */
  lemma {:induction false} ValueAfterInsert(n: Node, p: Path, v: string, q: Path)
    requires p != [] && q != [] && WellFormed(n) && forall i :: 0 <= i < |p| ==> p[i] != ""
    ensures ValueAt(Insert(n, p, v), q) == if Fold(p[1..]) == Fold(q[1..]) then v else ValueAt(n, q)
    decreases |p|
  {
    if |p| == 1 || |q| == 1 {
      if Fold(p[1..]) == Fold(q[1..]) {
        FoldLength(p[1..], q[1..]);
      }
      assert |p| == 1 && |q| == 1 ==> Fold(p[1..]) == Fold(q[1..]);
    } else {
      FoldTail(p, q);
      var i := Find(n.children, p[1]);
      var child := if i == -1 then Node(p[1], "", []) else n.children[i];
      var after := Insert(child, p[1..], v);
      InsertWellFormed(child, p[1..], v);
      if Lower(p[1]) == Lower(q[1]) {
        ValueAfterInsert(child, p[1..], v, q[1..]);
        ValueInFresh(p[1], q[1..]);
      }
      if i == -1 {
        FindAfterAppend(n.children, after, q[1]);
      } else {
        FindAfterUpdate(n.children, i, after, q[1]);
      }
    }
  }

  /* ---- Building from a label map ---- */

  type Labels = map<string, string>

  predicate HasFoldPrefix(key: string, filter: string) {
    |key| >= |filter| && Lower(key[..|filter|]) == Lower(filter)
  }

  predicate Selected(key: string, filters: seq<string>) {
    filters == [] || exists i :: 0 <= i < |filters| && HasFoldPrefix(key, filters[i])
  }

  ghost predicate Selects(labels: Labels, filters: seq<string>, keys: seq<string>) {
    Sorted(Less, keys) && forall k :: k in keys <==> k in labels && Selected(k, filters)
  }

  /** sortKeys: a key is listed once for every filter it matches. */
  method SortKeys(labels: Labels, filters: seq<string>) returns (keys: seq<string>)
    ensures Selects(labels, filters, keys)
  {
    var out: seq<string> := [];
    var todo := labels.Keys;
    while todo != {}
      invariant todo <= labels.Keys
      invariant forall k :: k in out <==> k in labels && k !in todo && Selected(k, filters)
      decreases todo
    {
      var key :| key in todo;
      if filters == [] {
        out := out + [key];
      } else {
        ghost var was := out;
        for i := 0 to |filters|
          invariant forall k :: k in out <==> k in was || (k == key && exists j :: 0 <= j < i && HasFoldPrefix(key, filters[j]))
        {
          if HasFoldPrefix(key, filters[i]) {
            out := out + [key];
          }
        }
      }
      todo := todo - {key};
    }
    StringOrder();
    SortSorted(Less, out);
    keys := Sort(Less, out);
    forall k ensures k in keys <==> k in out {
      assert k in multiset(keys) <==> k in multiset(out);
    }
  }

  lemma StringOrder()
    ensures WeakOrder(Less)
  {
    forall a: string, b: string, c: string
      ensures !(Less(a, b) && Less(b, a))
      ensures Less(a, c) ==> Less(a, b) || Less(b, c)
    {
      LessTotal(a, b);
      LessBetween(a, b, c);
    }
  }

  ghost predicate Buildable(labels: Labels, keys: seq<string>, root: string) {
    forall k :: k in keys ==> k in labels && Acceptable(k, root)
  }

  /** The tree after inserting the keys in order. */
  ghost function Build(labels: Labels, keys: seq<string>, root: string): Node
    requires Buildable(labels, keys, root)
  {
    if keys == [] then Node("", "", [])
    else
      var n := |keys| - 1;
      Insert(Build(labels, keys[..n], root), PathFor(keys[n]), labels[keys[n]])
  }

  lemma BuildNext(labels: Labels, keys: seq<string>, root: string, i: nat)
    requires i < |keys| && Buildable(labels, keys[..i], root) && keys[i] in labels && Acceptable(keys[i], root)
    ensures Buildable(labels, keys[..i + 1], root)
    ensures Build(labels, keys[..i + 1], root) == Insert(Build(labels, keys[..i], root), PathFor(keys[i]), labels[keys[i]])
  {
    assert keys[..i + 1][..i] == keys[..i] && keys[..i + 1] == keys[..i] + [keys[i]];
  }

  lemma {:induction false} BuildWellFormed(labels: Labels, keys: seq<string>, root: string)
    requires Buildable(labels, keys, root)
    ensures WellFormed(Build(labels, keys, root))
    ensures Build(labels, keys, root).name == if keys == [] then "" else PathFor(keys[0])[0]
  {
    if keys != [] {
      var n := |keys| - 1;
      assert keys[n] in keys;
      BuildWellFormed(labels, keys[..n], root);
      InsertWellFormed(Build(labels, keys[..n], root), PathFor(keys[n]), labels[keys[n]]);
    }
  }

  /** All keys of one root share the first part. */
  lemma SameRootSameHead(a: string, b: string, root: string)
    requires Acceptable(a, root) && Acceptable(b, root)
    ensures PathFor(a)[0] == PathFor(b)[0]
  {
    CutParts(root);
  }

  /** The value of the last key that equals this one up to case. */
  ghost function LastValue(labels: Labels, keys: seq<string>, key: string): string
    requires forall k :: k in keys ==> k in labels
  {
    if keys == [] then ""
    else if Lower(keys[|keys| - 1]) == Lower(key) then labels[keys[|keys| - 1]]
    else LastValue(labels, keys[..|keys| - 1], key)
  }

  lemma SameNodeIffSameKey(a: string, b: string, root: string)
    requires Acceptable(a, root) && Acceptable(b, root)
    ensures PathFor(b) != []
    ensures Fold(PathFor(a)[1..]) == Fold(PathFor(b)[1..]) <==> Lower(a) == Lower(b)
  {
    SameRootSameHead(a, b, root);
    SamePathIffSameKey(a, b);
    FoldTailsDecide(PathFor(a), PathFor(b));
  }

  lemma FoldTailsDecide(p: Path, q: Path)
    requires p != [] && q != [] && p[0] == q[0]
    ensures Fold(p[1..]) == Fold(q[1..]) <==> Fold(p) == Fold(q)
  {
    FoldHead(p);
    FoldHead(q);
    assert Fold(p)[1..] == Fold(p[1..]) && Fold(q)[1..] == Fold(q[1..]);
  }

  lemma FoldHead(p: Path)
    requires p != []
    ensures Fold(p) == [Lower(p[0])] + Fold(p[1..])
  {
  }

  /** Walking along a key gives the value of the last key that equals it up to case. */
  lemma {:induction false} WalkGivesLast(labels: Labels, keys: seq<string>, root: string, key: string)
    requires Buildable(labels, keys, root) && Acceptable(key, root)
    ensures ValueAt(Build(labels, keys, root), PathFor(key)) == LastValue(labels, keys, key)
  {
    if keys == [] {
      ValueInFresh("", PathFor(key));
    } else {
      var n := |keys| - 1;
      var last := keys[n];
      WalkGivesLast(labels, keys[..n], root, key);
      BuildWellFormed(labels, keys[..n], root);
      ValueAfterInsert(Build(labels, keys[..n], root), PathFor(last), labels[last], PathFor(key));
      SameNodeIffSameKey(last, key, root);
    }
  }

  lemma {:induction false} LastValueIs(labels: Labels, keys: seq<string>, key: string)
    requires forall k :: k in keys ==> k in labels
    ensures key in keys ==> exists k :: k in keys && Lower(k) == Lower(key) && LastValue(labels, keys, key) == labels[k]
  {
    if key in keys {
      var n := |keys| - 1;
      if Lower(keys[n]) == Lower(key) {
        assert keys[n] in keys;
      } else {
        assert keys == keys[..n] + [keys[n]];
        LastValueIs(labels, keys[..n], key);
      }
    }
  }

  ghost predicate Consistent(labels: Labels, keys: seq<string>) {
    forall a, b :: a in keys && b in keys && a in labels && b in labels && Lower(a) == Lower(b) ==> labels[a] == labels[b]
  }

  ghost predicate Faithful(labels: Labels, keys: seq<string>, root: string)
    requires Buildable(labels, keys, root)
  {
    forall k :: k in keys ==>
      ValueAt(Build(labels, keys, root), PathFor(k)) == labels[k]
  }

  /** Every key leads to its own value exactly when keys that differ only in case
      carry the same value. */
  lemma FaithfulIff(labels: Labels, keys: seq<string>, root: string)
    requires Buildable(labels, keys, root)
    ensures Faithful(labels, keys, root) <==> Consistent(labels, keys)
  {
    forall k | k in keys
      ensures ValueAt(Build(labels, keys, root), PathFor(k)) == LastValue(labels, keys, k)
    {
      WalkGivesLast(labels, keys, root, k);
    }
    if Consistent(labels, keys) {
      forall k | k in keys ensures LastValue(labels, keys, k) == labels[k] {
        LastValueIs(labels, keys, k);
      }
    } else {
      var a, b :| a in keys && b in keys && Lower(a) == Lower(b) && labels[a] != labels[b];
      SameLastValue(labels, keys, a, b);
    }
  }

  /* ---- What the names of a key are ---- */

  /** A segment no key may have. */
  predicate Refused(v: string) {
    v == "" || v[0] == '[' || (v[|v| - 1] == ']' && '[' !in v)
  }

  /** A key is refused exactly when one of its segments is. */
  lemma RefusedIff(key: string)
    ensures PathOf(key).None? <==> exists part :: part in Split(key, '.') && Refused(part)
  {
    CutRefused(Split(key, '.'));
  }

  lemma {:induction false} CutRefused(split: seq<string>)
    ensures CutAll(split).None? <==> exists part :: part in split && Refused(part)
  {
    if split != [] {
      CutRefused(split[1..]);
      assert split == [split[0]] + split[1..];
      assert Cut(split[0]).None? <==> Refused(split[0]);
    }
  }

  lemma CutAllCons(v: string, rest: seq<string>)
    ensures CutAll([v] + rest) == if Cut(v).Some? && CutAll(rest).Some? then Some(Cut(v).value + CutAll(rest).value) else None
  {
    assert ([v] + rest)[0] == v && ([v] + rest)[1..] == rest;
  }

  lemma {:induction false} CutAllConcat(a: seq<string>, b: seq<string>)
    requires CutAll(a).Some? && CutAll(b).Some?
    ensures CutAll(a + b) == Some(CutAll(a).value + CutAll(b).value)
  {
    if a == [] {
      assert a + b == b;
      assert [] + CutAll(b).value == CutAll(b).value;
    } else {
      CutAllConcat(a[1..], b);
      CutAllCons(a[0], a[1..] + b);
      assert a + b == [a[0]] + (a[1..] + b);
      Regroup(Cut(a[0]).value, CutAll(a[1..]).value, CutAll(b).value);
    }
  }

  lemma Regroup(x: Path, y: Path, z: Path)
    ensures x + (y + z) == x + y + z
  {
  }

  lemma {:induction false} JoinConcat(a: seq<string>, b: seq<string>)
    requires a != [] && b != []
    ensures Join(a + b, '.') == Join(a, '.') + "." + Join(b, '.')
  {
    assert (a + b)[0] == a[0] && (a + b)[1..] == a[1..] + b;
    if |a| > 1 {
      JoinConcat(a[1..], b);
    }
  }

  lemma SplitConcat(a: string, b: string)
    ensures Split(a + "." + b, '.') == Split(a, '.') + Split(b, '.')
  {
    var p, q := Split(a, '.'), Split(b, '.');
    JoinConcat(p, q);
    forall i | 0 <= i < |p + q| ensures '.' !in (p + q)[i] {
      assert i < |p| ==> p[i] in p;
      assert i >= |p| ==> q[i - |p|] in q;
    }
    SplitJoin(p + q, '.');
  }

  /** A dot puts the names of two keys one after the other. */
  lemma DotConcat(a: string, b: string)
    requires PathOf(a).Some? && PathOf(b).Some?
    ensures PathOf(a + "." + b) == Some(PathOf(a).value + PathOf(b).value)
  {
    SplitConcat(a, b);
    CutAllConcat(Split(a, '.'), Split(b, '.'));
  }

  lemma OneSegment(v: string)
    requires '.' !in v
    ensures PathOf(v) == Cut(v)
  {
    assert Split(v, '.') == [v];
    assert [v][1..] == [] && CutAll([]) == Some([]);
    if Cut(v).Some? {
      assert Cut(v).value + [] == Cut(v).value;
    }
  }

  /** A segment without a bracket at its end is one name. */
  lemma PlainName(v: string)
    requires v != "" && '.' !in v && v[0] != '[' && v[|v| - 1] != ']'
    ensures PathOf(v) == Some([v])
  {
    OneSegment(v);
  }

  /** A segment with an index is two names: what is before its first bracket, and the rest. */
  lemma BracketName(a: string, i: string)
    requires a != "" && '.' !in a && '[' !in a && '.' !in i
    ensures PathOf(a + "[" + i + "]") == Some([a, "[" + i + "]"])
  {
    var v := a + "[" + i + "]";
    assert v == a + ['['] + (i + "]");
    IndexOfAfter(a, '[', i + "]");
    assert v[0] == a[0] && v[|v| - 1] == ']' && v[..|a|] == a && v[|a|..] == "[" + i + "]";
    OneSegment(v);
  }

  /** The names of a key with an index in it. */
  lemma BracketSplits(head: string, a: string, i: string, tail: string)
    requires PathOf(head).Some? && PathOf(tail).Some?
    requires a != "" && '.' !in a && '[' !in a && '.' !in i
    ensures PathOf(head + "." + (a + "[" + i + "]") + "." + tail)
            == Some(PathOf(head).value + [a, "[" + i + "]"] + PathOf(tail).value)
  {
    var v := a + "[" + i + "]";
    BracketName(a, i);
    DotConcat(head, v);
    DotConcat(head + "." + v, tail);
  }

  /** The tree has the value of such a key below its list, its index, and its field. */
  lemma BracketNodes(labels: Labels, keys: seq<string>, root: string, head: string, a: string, i: string, tail: string)
    requires Buildable(labels, keys, root) && Acceptable(head, root) && PathOf(tail).Some?
    requires a != "" && '.' !in a && '[' !in a && '.' !in i
    ensures var key := head + "." + (a + "[" + i + "]") + "." + tail;
            && ValueAt(Build(labels, keys, root), PathFor(head) + [a, "[" + i + "]"] + PathFor(tail)) == LastValue(labels, keys, key)
            && (key in keys && Consistent(labels, keys) ==> LastValue(labels, keys, key) == labels[key])
  {
    var v := a + "[" + i + "]";
    var key := head + "." + v + "." + tail;
    BracketSplits(head, a, i, tail);
    SplitConcat(head, v);
    SplitConcat(head + "." + v, tail);
    WalkGivesLast(labels, keys, root, key);
    LastValueIs(labels, keys, key);
  }

  /** A name as the cut leaves it: a bracket is at its start, or it does not end in one. */
  predicate NameCut(v: string) {
    v != "" && (v[0] == '[' ==> v[|v| - 1] == ']') && (v[0] != '[' && '[' in v ==> v[|v| - 1] != ']')
  }

  lemma {:induction false} NamesCut(split: seq<string>)
    requires CutAll(split).Some?
    ensures forall v :: v in CutAll(split).value ==> NameCut(v)
  {
    if split != [] {
      NamesCut(split[1..]);
      var v := split[0];
      var i := IndexOf(v, '[');
      if i > 0 && v[|v| - 1] == ']' {
        assert v[i..][0] == '[' && v[i..][|v| - i - 1] == ']';
        assert v[..i][0] == v[0];
      }
    }
  }

  ghost predicate NodesCut(n: Node) {
    (n.name != "" ==> NameCut(n.name)) && forall i :: 0 <= i < |n.children| ==> NodesCut(n.children[i])
  }

  lemma {:induction false} InsertNodesCut(n: Node, path: Path, value: string)
    requires path != [] && NodesCut(n) && forall v :: v in path ==> NameCut(v)
    ensures NodesCut(Insert(n, path, value))
    decreases |path|
  {
    assert path[0] in path;
    if |path| > 1 {
      assert path[1] in path;
      var i := Find(n.children, path[1]);
      InsertNodesCut(if i == -1 then Node(path[1], "", []) else n.children[i], path[1..], value);
    }
  }

  /** In a built tree no name that starts without a bracket has one and ends in one: the
      split is complete at every node. */
  lemma {:induction false} BuildNodesCut(labels: Labels, keys: seq<string>, root: string)
    requires Buildable(labels, keys, root)
    ensures NodesCut(Build(labels, keys, root))
  {
    if keys != [] {
      var n := |keys| - 1;
      assert keys[n] in keys;
      BuildNodesCut(labels, keys[..n], root);
      NamesCut(Split(keys[n], '.'));
      InsertNodesCut(Build(labels, keys[..n], root), PathFor(keys[n]), labels[keys[n]]);
    }
  }

  /** A name that keeps a bracket after its first character and ends in one. */
  predicate BracketWithin(v: string) {
    v != "" && '[' in v[1..] && v[|v| - 1] == ']'
  }

  /** Only the first bracket of a segment is split at: a name keeps another one exactly
      when its segment has two and ends in one. */
  lemma SecondBracketStays(key: string)
    requires PathOf(key).Some?
    ensures (exists v :: v in PathOf(key).value && BracketWithin(v))
            <==> exists part :: part in Split(key, '.') && TwoBrackets(part)
  {
    SecondBrackets(Split(key, '.'));
  }

  predicate TwoBrackets(part: string) {
    part != "" && part[|part| - 1] == ']' && '[' in part && '[' in part[IndexOf(part, '[') + 1..]
  }

  lemma SecondBracket(part: string)
    requires Cut(part).Some?
    ensures (exists v :: v in Cut(part).value && BracketWithin(v)) <==> TwoBrackets(part)
  {
    var i := IndexOf(part, '[');
    if part[|part| - 1] == ']' {
      assert part[i..][1..] == part[i + 1..];
      assert part[i..] in Cut(part).value;
      assert '[' !in part[..i];
    }
  }

  lemma {:induction false} SecondBrackets(split: seq<string>)
    requires CutAll(split).Some?
    ensures (exists v :: v in CutAll(split).value && BracketWithin(v)) <==> exists part :: part in split && TwoBrackets(part)
  {
    if split != [] {
      SecondBracket(split[0]);
      SecondBrackets(split[1..]);
      assert split == [split[0]] + split[1..];
    }
  }

  /** For example, the names of "a[0][1]" are "a" and "[0][1]". */
  lemma TwoIndices()
    ensures PathOf("a[0][1]") == Some(["a", "[0][1]"]) && BracketWithin("[0][1]")
  {
    BracketName("a", "0][1");
    assert "a" + "[" + "0][1" + "]" == "a[0][1]" && "[" + "0][1" + "]" == "[0][1]";
    assert "[0][1]"[3] == '[' && "[0][1]"[1..][2] == '[';
  }

  /* ---- Keys that differ in case ---- */

  lemma KeyPath(parts: seq<string>)
    requires |parts| >= 1 && forall i :: 0 <= i < |parts| ==> '.' !in parts[i] && Cut(parts[i]) == Some([parts[i]])
    ensures Split(Join(parts, '.'), '.') == parts && CutAll(parts).Some?
  {
    SplitJoin(parts, '.');
    PlainParts(parts);
  }

  lemma {:induction false} PlainParts(parts: seq<string>)
    requires forall i :: 0 <= i < |parts| ==> Cut(parts[i]) == Some([parts[i]])
    ensures CutAll(parts).Some?
  {
    if parts != [] {
      PlainParts(parts[1..]);
    }
  }

  lemma HttpKey(name: string)
    requires name != "" && '.' !in name && name[0] != '[' && name[|name| - 1] != ']'
    ensures Acceptable("traefik.http." + name, "traefik")
  {
    var parts := ["traefik", "http", name];
    assert parts[1..] == ["http", name] && parts[1..][1..] == [name];
    assert Join([name], '.') == name;
    assert Join(["http", name], '.') == "http." + name;
    assert "traefik" + "." + ("http." + name) == "traefik.http." + name;
    assert Join(parts, '.') == "traefik.http." + name;
    KeyPath(parts);
  }

  /** Two accepted labels that differ only in case and have different values: the tree
      has one value for both, so one of the keys leads to the other's value. */
  lemma CaseOverwrites(a: string, b: string, x: string, y: string, root: string, filters: seq<string>)
    requires Acceptable(a, root) && Acceptable(b, root) && Lower(a) == Lower(b) && Less(a, b) && x != y
    requires Selected(a, filters) && Selected(b, filters)
    ensures a != b
    ensures var labels, keys := map[a := x, b := y], [a, b];
            Buildable(labels, keys, root) && Selects(labels, filters, keys) && !Faithful(labels, keys, root)
  {
    LessTotal(a, b);
    var labels, keys := map[a := x, b := y], [a, b];
    TwoSelected(labels, filters, a, b);
    TwoInconsistent(labels, keys, a, b);
    FaithfulIff(labels, keys, root);
  }

  lemma TwoSelected(labels: Labels, filters: seq<string>, a: string, b: string)
    requires labels.Keys == {a, b} && Less(a, b) && Selected(a, filters) && Selected(b, filters)
    ensures Selects(labels, filters, [a, b])
  {
    LessTotal(a, b);
  }

  lemma TwoInconsistent(labels: Labels, keys: seq<string>, a: string, b: string)
    requires a in labels && b in labels && labels[a] != labels[b] && Lower(a) == Lower(b) && a in keys && b in keys
    ensures !Consistent(labels, keys)
  {
  }

  /** There are such labels: the HTTP routers "A" and "a". */
  lemma CaseOverwritesTraefik() returns (a: string, b: string)
    ensures Acceptable(a, "traefik") && Acceptable(b, "traefik") && Lower(a) == Lower(b) && Less(a, b)
    ensures Selected(a, ["traefik.http", "traefik.tcp"]) && Selected(b, ["traefik.http", "traefik.tcp"])
  {
    var head := "traefik.http.";
    a, b := head + "A", head + "a";
    HttpKey("A");
    HttpKey("a");
    LowerConcat(head, "A");
    LowerConcat(head, "a");
    assert Lower("A") == Lower("a");
    LessByLast(head, 'A', 'a');
    HttpSelected("A");
    HttpSelected("a");
  }

  lemma HttpSelected(name: string)
    ensures Selected("traefik.http." + name, ["traefik.http", "traefik.tcp"])
  {
    var key, filters := "traefik.http." + name, ["traefik.http", "traefik.tcp"];
    assert key[..12] == filters[0];
    assert HasFoldPrefix(key, filters[0]);
  }

  lemma {:induction false} LessByLast(head: string, a: char, b: char)
    requires a < b
    ensures Less(head + [a], head + [b])
  {
    if head != [] {
      LessByLast(head[1..], a, b);
      assert (head + [a])[1..] == head[1..] + [a] && (head + [b])[1..] == head[1..] + [b];
    }
  }

  lemma {:induction false} SameLastValue(labels: Labels, keys: seq<string>, a: string, b: string)
    requires (forall k :: k in keys ==> k in labels) && Lower(a) == Lower(b)
    ensures LastValue(labels, keys, a) == LastValue(labels, keys, b)
  {
    if keys != [] {
      SameLastValue(labels, keys[..|keys| - 1], a, b);
    }
  }

  /* ---- Flattening ---- */

  /** Every path of names that ends in a value. */
  ghost predicate Holds(n: Node, path: Path, value: string)
    decreases |path|
  {
    && path != [] && path[0] == n.name && value != ""
    && if |path| == 1 then n.value == value
       else exists i :: 0 <= i < |n.children| && Holds(n.children[i], path[1..], value)
  }

  lemma FindOwn(children: seq<Node>, i: nat, parent: Node)
    requires WellFormed(parent) && parent.children == children && i < |children|
    ensures Find(children, children[i].name) == i
  {
    var j := Find(children, children[i].name);
    assert j >= 0 && Lower(children[j].name) == Lower(children[i].name);
  }

  lemma {:induction false} HoldsIsValue(n: Node, path: Path, value: string)
    requires WellFormed(n) && Holds(n, path, value)
    ensures ValueAt(n, path) == value
    decreases |path|
  {
    if |path| > 1 {
      var i :| 0 <= i < |n.children| && Holds(n.children[i], path[1..], value);
      HoldsIsValue(n.children[i], path[1..], value);
      FindOwn(n.children, i, n);
    }
  }

  lemma {:induction false} ValueIsHeld(n: Node, q: Path) returns (p: Path)
    requires q != [] && ValueAt(n, q) != ""
    ensures Holds(n, p, ValueAt(n, q)) && Fold(p[1..]) == Fold(q[1..])
    decreases |q|
  {
    if |q| == 1 {
      p := [n.name];
      assert p[1..] == q[1..];
    } else {
      var i := Find(n.children, q[1]);
      var rest := ValueIsHeld(n.children[i], q[1..]);
      p := [n.name] + rest;
      assert p[1..] == rest;
      FoldHead(rest);
      FoldHead(q[1..]);
    }
  }

  /** Flattening the tree gives back the labels, up to case: a path holds a non-empty
      value exactly when it spells a key that has it. */
  lemma FlattenGivesLabels(labels: Labels, keys: seq<string>, root: string, name: string, value: string)
    requires Buildable(labels, keys, root) && Consistent(labels, keys) && value != "" && keys != []
    ensures (exists p :: Holds(Build(labels, keys, root), p, value) && Lower(Glue(p)) == Lower(name))
            <==> (exists k :: k in keys && labels[k] == value && Lower(k) == Lower(name))
  {
    FaithfulIff(labels, keys, root);
    if p :| Holds(Build(labels, keys, root), p, value) && Lower(Glue(p)) == Lower(name) {
      var k := HeldIsLabel(labels, keys, root, p, value);
    }
    if k :| k in keys && labels[k] == value && Lower(k) == Lower(name) {
      LabelIsHeld(labels, keys, root, k);
    }
  }

  lemma LabelIsHeld(labels: Labels, keys: seq<string>, root: string, k: string)
    requires Buildable(labels, keys, root) && Faithful(labels, keys, root) && k in keys && labels[k] != ""
    ensures exists p :: Holds(Build(labels, keys, root), p, labels[k]) && Lower(Glue(p)) == Lower(k)
  {
    var tree, q := Build(labels, keys, root), PathFor(k);
    var p := ValueIsHeld(tree, q);
    RootName(labels, keys, root, k);
    FoldHead(p);
    FoldHead(q);
    GlueFold(p);
    GlueFold(q);
  }

  lemma RootName(labels: Labels, keys: seq<string>, root: string, k: string)
    requires Buildable(labels, keys, root) && k in keys
    ensures Build(labels, keys, root).name == PathFor(k)[0]
  {
    BuildWellFormed(labels, keys, root);
    assert keys[0] in keys;
    SameRootSameHead(k, keys[0], root);
  }

  lemma HeldIsLabel(labels: Labels, keys: seq<string>, root: string, p: Path, value: string) returns (k: string)
    requires Buildable(labels, keys, root) && keys != [] && Holds(Build(labels, keys, root), p, value)
    ensures k in keys && labels[k] == value && Lower(k) == Lower(Glue(p))
  {
    BuildWellFormed(labels, keys, root);
    HoldsIsValue(Build(labels, keys, root), p, value);
    k := ValueComesFrom(labels, keys, root, p);
    RootName(labels, keys, root, k);
    FoldHead(p);
    FoldHead(PathFor(k));
    GlueFold(p);
    GlueFold(PathFor(k));
  }

  lemma {:induction false} ValueComesFrom(labels: Labels, keys: seq<string>, root: string, q: Path) returns (k: string)
    requires Buildable(labels, keys, root) && q != [] && ValueAt(Build(labels, keys, root), q) != ""
    ensures k in keys && labels[k] == ValueAt(Build(labels, keys, root), q)
    ensures Fold(PathFor(k)[1..]) == Fold(q[1..])
  {
    if keys == [] {
      ValueInFresh("", q);
      assert false;
    } else {
      var n := |keys| - 1;
      BuildWellFormed(labels, keys[..n], root);
      ValueAfterInsert(Build(labels, keys[..n], root), PathFor(keys[n]), labels[keys[n]], q);
      if Fold(PathFor(keys[n])[1..]) == Fold(q[1..]) {
        k := keys[n];
      } else {
        k := ValueComesFrom(labels, keys[..n], root, q);
      }
    }
  }

  /* ---- The filter in front of the tree ---- */

  predicate Balanced(part: string) {
    ']' in part ==> '[' in part
  }

  predicate ValidSegment(part: string) {
    part != "" && part[0] != '[' && Balanced(part)
  }

  method ValidTraefikLabelKey(key: string) returns (ok: bool)
    ensures ok <==> Acceptable(key, "traefik") && forall part :: part in Split(key, '.') ==> Balanced(part)
  {
    var split := Split(key, '.');
    AcceptedSegments(split);
    if split[0] != "traefik" {
      return false;
    }
    ok := CheckSegments(split);
  }

  method CheckSegments(split: seq<string>) returns (ok: bool)
    ensures ok <==> forall part :: part in split ==> ValidSegment(part)
  {
    for i := 0 to |split|
      invariant forall j :: 0 <= j < i ==> ValidSegment(split[j])
    {
      if split[i] == "" || split[i][0] == '[' || (']' in split[i] && '[' !in split[i]) {
        assert split[i] in split;
        return false;
      }
    }
    ok := true;
  }

  /** The filter's test on segments is the tree's test, and balanced brackets. */
  lemma {:induction false} AcceptedSegments(split: seq<string>)
    ensures (forall part :: part in split ==> ValidSegment(part))
            <==> CutAll(split).Some? && forall part :: part in split ==> Balanced(part)
  {
    if split != [] {
      AcceptedSegments(split[1..]);
      assert split == [split[0]] + split[1..];
      assert ValidSegment(split[0]) <==> Cut(split[0]).Some? && Balanced(split[0]);
    }
  }

  predicate IsTraefikKey(key: string) {
    HasFoldPrefix(key, "traefik.")
  }

  /** The keys the filter lets through. */
  predicate Kept(k: string) {
    && IsTraefikKey(k) && !HasFoldPrefix(k, "traefik.udp")
    && Acceptable(k, "traefik") && forall part :: part in Split(k, '.') ==> Balanced(part)
  }
}
