/** JUCE's ValueTree, taken as a value: a type name, named properties and an
    ordered list of child trees. */
module ValueTrees {

  /** The property values a context writes: integers, flags and strings. */
  datatype Var = IntVar(i: int) | BoolVar(b: bool) | StringVar(s: string)

  datatype ValueTree = ValueTree(name: string, props: map<string, Var>, children: seq<ValueTree>)

  /** A tree of the given type with no properties and no children. */
  function NewTree(name: string): (r: ValueTree)
    ensures r.name == name && r.props.Keys == {} && r.children == []
  {
    ValueTree(name, map[], [])
  }

  /** Setting a property adds it, or replaces its value; name and children stay. */
  function SetProperty(t: ValueTree, key: string, v: Var): (r: ValueTree)
    ensures r.name == t.name && r.children == t.children
    ensures r.props.Keys == t.props.Keys + {key}
    ensures key in r.props && r.props[key] == v
    ensures forall k :: k in t.props && k != key ==> r.props[k] == t.props[k]
  {
    t.(props := t.props[key := v])
  }

  /** The position of the first child of type `name` in `children`, or -1. */
  function IndexOfChild(children: seq<ValueTree>, name: string): (r: int)
    ensures -1 <= r < |children|
    ensures r >= 0 ==> children[r].name == name
    ensures forall j :: 0 <= j < |children| && (r < 0 || j < r) ==> children[j].name != name
    decreases |children|
  {
    if children == [] then -1
    else if children[0].name == name then 0
    else
      var r := IndexOfChild(children[1..], name);
      if r < 0 then -1 else r + 1
  }

  /** Returns the tree and the position of its first child of type `name`,
      appending an empty child of that type first when there is none. */
  function GetOrCreateChildWithName(t: ValueTree, name: string): (r: (ValueTree, nat))
    ensures r.1 < |r.0.children| && r.0.children[r.1].name == name
    ensures r.0.name == t.name && r.0.props == t.props
    ensures IndexOfChild(t.children, name) >= 0 ==> r.0 == t && r.1 == IndexOfChild(t.children, name)
    ensures IndexOfChild(t.children, name) < 0 ==>
              r.0.children == t.children + [NewTree(name)] && r.1 == |t.children|
  {
    var i := IndexOfChild(t.children, name);
    if i >= 0 then (t, i)
    else (t.(children := t.children + [NewTree(name)]), |t.children|)
  }

  /** Appends `child` to the children of the child at position `index`. */
  function AppendToChild(t: ValueTree, index: nat, child: ValueTree): (r: ValueTree)
    requires index < |t.children|
    ensures r.name == t.name && r.props == t.props && |r.children| == |t.children|
    ensures r.children[index].children == t.children[index].children + [child]
    ensures r.children[index].name == t.children[index].name
    ensures r.children[index].props == t.children[index].props
    ensures forall j :: 0 <= j < |t.children| && j != index ==> r.children[j] == t.children[j]
  {
    var c := t.children[index];
    t.(children := t.children[index := c.(children := c.children + [child])])
  }
}
