/** The label tree as linked nodes that decodeToNode updates in place (label/parser.go). */
module LabelNodes {
  import opened Text
  import opened LabelTrie

  class TreeNode {
    var name: string
    var value: string
    var children: seq<TreeNode>
    ghost var repr: set<TreeNode>
    ghost var view: Node

    /** The nodes below are owned by exactly one parent, and `view` is the tree they form. */
    ghost predicate Valid()
      reads this, repr
      decreases repr
    {
      && this in repr && Shape()
      && (forall i :: 0 <= i < |children| ==> children[i].Valid())
    }

    ghost predicate Shape()
      reads this, repr
      requires this in repr
    {
      && view.name == name && view.value == value && |view.children| == |children|
      && (forall i :: 0 <= i < |children| ==>
            children[i] in repr && children[i].repr < repr && this !in children[i].repr
            && view.children[i] == children[i].view)
      && (forall i, j :: 0 <= i < j < |children| ==> children[i].repr !! children[j].repr)
    }

    constructor (name: string)
      ensures Valid() && fresh(repr) && view == Node(name, "", [])
    {
      this.name, value, children := name, "", [];
      repr, view := {this}, Node(name, "", []);
    }

    /** containsNode. */
    method FindChild(wanted: string) returns (i: int)
      requires Valid()
      ensures i == Find(view.children, wanted)
    {
      for k := 0 to |children|
        invariant forall j :: 0 <= j < k ==> Lower(view.children[j].name) != Lower(wanted)
      {
        assert children[k].Valid();
        if Lower(wanted) == Lower(children[k].name) {
          return k;
        }
      }
      return -1;
    }

    /** decodeToNode. */
    method Decode(path: Path, v: string)
      requires Valid() && path != []
      modifies repr
      ensures Valid() && fresh(repr - old(repr)) && view == Insert(old(view), path, v)
      decreases |path|, 0
    {
      if name == "" {
        Rename(path[0]);
      }
      if |path| == 1 {
        SetValue(v);
      } else {
        var i := FindChild(path[1]);
        if i == -1 {
          DecodeFresh(path[1..], v);
        } else {
          DecodeBelow(i, path[1..], v);
        }
      }
    }

    method Rename(name: string)
      requires Valid()
      modifies this
      ensures Valid() && repr == old(repr) && view == old(view).(name := name)
    {
      this.name := name;
      view := view.(name := name);
    }

    method SetValue(v: string)
      requires Valid()
      modifies this
      ensures Valid() && repr == old(repr) && view == old(view).(value := v)
    {
      value := v;
      view := view.(value := v);
    }

    /** A new child for a name not seen before. */
    method DecodeFresh(path: Path, v: string)
      requires Valid() && path != []
      modifies repr
      ensures Valid() && fresh(repr - old(repr))
      ensures view == old(view).(children := old(view).children + [Insert(Node(path[0], "", []), path, v)])
      decreases |path|, 1
    {
      var child := new TreeNode(path[0]);
      child.Decode(path, v);
      Append(child);
    }

    /** The recursive call on a child: its subtree changes, its siblings do not. */
    method DecodeChild(i: nat, path: Path, v: string)
      requires Valid() && path != [] && i < |children|
      modifies children[i].repr
      ensures children[i].Valid() && fresh(children[i].repr - old(children[i].repr))
      ensures children[i].view == Insert(old(children[i].view), path, v)
      ensures forall j :: 0 <= j < |children| && j != i ==>
                children[j].Valid() && children[j].repr !! children[i].repr
                && children[j].repr == old(children[j].repr) && children[j].view == old(children[j].view)
      decreases |path|, 1
    {
      var child := children[i];
      assert child.Valid();
      child.Decode(path, v);
      forall j | 0 <= j < |children| && j != i
        ensures children[j].Valid() && children[j].repr !! child.repr && children[j].view == old(children[j].view)
      {
        assert old(children[j].Valid());
      }
    }

    method DecodeBelow(i: nat, path: Path, v: string)
      requires Valid() && path != [] && i < |children|
      modifies repr
      ensures Valid() && fresh(repr - old(repr))
      ensures i < |old(view).children|
      ensures view == old(view).(children := old(view).children[i := Insert(old(view).children[i], path, v)])
      decreases |path|, 2
    {
      DecodeChild(i, path, v);
      assert this !in children[i].repr;
      repr := repr + children[i].repr;
      view := view.(children := view.children[i := children[i].view]);
    }

    method Append(child: TreeNode)
      requires Valid() && child.Valid() && repr !! child.repr
      modifies this
      ensures Valid() && repr == old(repr) + child.repr
      ensures view == old(view).(children := old(view).children + [child.view])
    {
      children := children + [child];
      repr := repr + child.repr;
      view := view.(children := view.children + [child.view]);
    }
  }

  /** The loop over the sorted keys. */
  method BuildAll(labels: Labels, keys: seq<string>, root: string) returns (ok: bool, node: TreeNode?)
    requires forall k :: k in keys ==> k in labels
    ensures ok <==> Buildable(labels, keys, root)
    ensures ok ==> (node == null <==> keys == [])
    ensures ok && node != null ==> node.Valid() && fresh(node.repr) && node.view == Build(labels, keys, root)
  {
    node := null;
    for i := 0 to |keys|
      invariant Buildable(labels, keys[..i], root) && (node == null <==> i == 0)
      invariant node != null ==> node.Valid() && fresh(node.repr) && node.view == Build(labels, keys[..i], root)
    {
      var key := keys[i];
      assert key in keys;
      if Split(key, '.')[0] != root || PathOf(key).None? {
        return false, null;
      }
      BuildNext(labels, keys, root, i);
      if i == 0 {
        node := new TreeNode("");
      }
      node.Decode(PathFor(key), labels[key]);
    }
    assert keys[..|keys|] == keys;
    ok := true;
  }

  /** DecodeToNode: one refused key fails the whole map; otherwise the nodes form the
      tree of the selected keys. */
  method DecodeToNode(labels: Labels, root: string, filters: seq<string>)
    returns (ok: bool, node: TreeNode?, ghost keys: seq<string>)
    ensures ok <==> forall k :: k in labels && Selected(k, filters) ==> Acceptable(k, root)
    ensures ok ==> (node == null <==> forall k :: k in labels ==> !Selected(k, filters))
    ensures Selects(labels, filters, keys)
    ensures ok && node != null ==> Buildable(labels, keys, root) && node.Valid() && node.view == Build(labels, keys, root)
  {
    var sorted := SortKeys(labels, filters);
    keys := sorted;
    ok, node := BuildAll(labels, sorted, root);
    assert keys != [] ==> keys[0] in keys;
  }

  /** decodeTraefikLabels: whatever the labels, the filtered map always decodes, so a
      malformed label never costs the others. */
  method DecodeTraefikLabels(labels: Labels) returns (node: TreeNode?, filtered: Labels, ghost keys: seq<string>)
    ensures forall k :: k in filtered <==> k in labels && Kept(k)
    ensures forall k :: k in filtered ==> filtered[k] == labels[k]
    ensures Selects(filtered, ["traefik.http", "traefik.tcp"], keys) && Buildable(filtered, keys, "traefik")
    ensures node == null <==> forall k :: k in filtered ==> !Selected(k, ["traefik.http", "traefik.tcp"])
    ensures node != null ==> node.Valid() && node.view == Build(filtered, keys, "traefik")
  {
    filtered := map[];
    var todo := labels.Keys;
    while todo != {}
      invariant todo <= labels.Keys
      invariant forall k :: k in filtered <==> k in labels && k !in todo && Kept(k)
      invariant forall k :: k in filtered ==> filtered[k] == labels[k]
      decreases todo
    {
      var key :| key in todo;
      if IsTraefikKey(key) {
        var valid := ValidTraefikLabelKey(key);
        if valid && !HasFoldPrefix(key, "traefik.udp") {
          filtered := filtered[key := labels[key]];
        }
      }
      todo := todo - {key};
    }
    var ok;
    ok, node, keys := DecodeToNode(filtered, "traefik", ["traefik.http", "traefik.tcp"]);
  }
}
