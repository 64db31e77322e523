/** No object anywhere in a parsed document has the same key twice. */
module UniqueKeys {

  /** A parsed value: containers have children, an object's children have keys. */
  datatype Node = Node(isObject: bool, key: string, children: seq<Node>)

  /** A path of child numbers that can be followed from a node. */
  predicate Reaches(obj: Node, path: seq<nat>)
    decreases |path|
  {
    path != [] ==> path[0] < |obj.children| && Reaches(obj.children[path[0]], path[1..])
  }

  function At(obj: Node, path: seq<nat>): Node
    requires Reaches(obj, path)
    decreases |path|
  {
    if path == [] then obj else At(obj.children[path[0]], path[1..])
  }

  predicate Distinct(obj: Node) {
    obj.isObject ==> forall i, j | 0 <= i < j < |obj.children| :: obj.children[i].key != obj.children[j].key
  }

  ghost predicate DistinctEverywhere(obj: Node) {
    forall path | Reaches(obj, path) :: Distinct(At(obj, path))
  }

  /** Distinct everywhere is distinct here and everywhere below; the elements of an array have no keys to differ. */
  lemma {:induction false} HereAndBelow(obj: Node)
    ensures DistinctEverywhere(obj) <==> Distinct(obj) && forall c | c in obj.children :: DistinctEverywhere(c)
    ensures !obj.isObject && (forall c | c in obj.children :: DistinctEverywhere(c)) ==> DistinctEverywhere(obj)
    ensures obj.isObject && DistinctEverywhere(obj) ==>
              forall i, j | 0 <= i < j < |obj.children| :: obj.children[i].key != obj.children[j].key
  {
    if DistinctEverywhere(obj) {
      assert Reaches(obj, []) && At(obj, []) == obj;
      forall c, path | c in obj.children && Reaches(c, path) ensures Distinct(At(c, path)) {
        var i :| 0 <= i < |obj.children| && obj.children[i] == c;
        assert ([i] + path)[1..] == path;
        assert Reaches(obj, [i] + path);
      }
    }
    if Distinct(obj) && forall c | c in obj.children :: DistinctEverywhere(c) {
      forall path | Reaches(obj, path) ensures Distinct(At(obj, path)) {
        if path != [] {
          assert obj.children[path[0]] in obj.children;
          assert Reaches(obj.children[path[0]], path[1..]);
        }
      }
    }
  }

  /** Compares every key with the later ones, and descends into every child that has children. */
  method AreUnique(obj: Node) returns (ok: bool)
    ensures ok <==> DistinctEverywhere(obj)
    decreases obj
  {
    HereAndBelow(obj);
    var a := 0;
    while a < |obj.children|
      invariant a <= |obj.children|
      invariant obj.isObject ==>
                  forall i, j | 0 <= i < a && i < j < |obj.children| :: obj.children[i].key != obj.children[j].key
      invariant forall i | 0 <= i < a :: DistinctEverywhere(obj.children[i])
    {
      var child := obj.children[a];
      if obj.isObject {
        var b := a + 1;
        while b < |obj.children|
          invariant a < b <= |obj.children|
          invariant forall j | a < j < b :: child.key != obj.children[j].key
        {
          if child.key == obj.children[b].key { return false; }
          b := b + 1;
        }
      }
      HereAndBelow(child);
      if child.children != [] {
        var below := AreUnique(child);
        if !below { return false; }
      }
      a := a + 1;
    }
    return true;
  }
}
