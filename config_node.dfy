/**
 * The host's `ConfigNode`: a named node holding an ordered list of key/value pairs
 * and an ordered list of child nodes. Only the operations the configuration manager
 * calls are modelled: `GetValue`, `GetNode`, `GetNodes` (the `nodes` field),
 * `SetValue` and `AddNode`. Reading and writing the text file is not modelled.
 */
module ConfigTree {
  import opened Wrappers

  datatype ConfigNode = ConfigNode(name: string, values: seq<(string, string)>, nodes: seq<ConfigNode>)

  /** A node with a name and nothing in it: `new ConfigNode(name)`. */
  function EmptyNode(name: string): ConfigNode {
    ConfigNode(name, [], [])
  }

  /** The value of the first pair whose key is `key`, if any. */
  function FirstValue(values: seq<(string, string)>, key: string): Option<string> {
    if values == [] then None
    else if values[0].0 == key then Some(values[0].1)
    else FirstValue(values[1..], key)
  }

  /** `node.GetValue(key)`: the first value stored under `key`, or null. */
  function GetValue(node: ConfigNode, key: string): Option<string> {
    FirstValue(node.values, key)
  }

  /** The first node of `nodes` named `name`, if any. */
  function FirstNode(nodes: seq<ConfigNode>, name: string): (r: Option<ConfigNode>)
    ensures r.Some? ==> r.value in nodes && r.value.name == name
    ensures r.None? ==> forall i :: 0 <= i < |nodes| ==> nodes[i].name != name
  {
    if nodes == [] then None
    else if nodes[0].name == name then Some(nodes[0])
    else FirstNode(nodes[1..], name)
  }

  /** `node.GetNode(name)`: the first child named `name`, or null. */
  function GetNode(node: ConfigNode, name: string): Option<ConfigNode> {
    FirstNode(node.nodes, name)
  }

  /** Replaces the value of the first pair with key `key`, or appends the pair when there is none. */
  function SetIn(values: seq<(string, string)>, key: string, value: string): seq<(string, string)> {
    if values == [] then [(key, value)]
    else if values[0].0 == key then [(key, value)] + values[1..]
    else [values[0]] + SetIn(values[1..], key, value)
  }

  /** `node.SetValue(key, value)`, taken to set the key or add it when it is missing. */
  function SetValue(node: ConfigNode, key: string, value: string): (r: ConfigNode)
    ensures r.name == node.name && r.nodes == node.nodes
  {
    node.(values := SetIn(node.values, key, value))
  }

  /** `node.AddNode(child)`: appends a child. */
  function AddNode(node: ConfigNode, child: ConfigNode): (r: ConfigNode)
    ensures r.name == node.name && r.values == node.values
    ensures r.nodes == node.nodes + [child]
  {
    node.(nodes := node.nodes + [child])
  }

  /** The pairs of `values` whose key is not `key`, in order. */
  function RemoveKey(values: seq<(string, string)>, key: string): seq<(string, string)> {
    if values == [] then []
    else if values[0].0 == key then RemoveKey(values[1..], key)
    else [values[0]] + RemoveKey(values[1..], key)
  }

  /** `node` without any value under `key`: the node as if the key had never been written. */
  function WithoutValue(node: ConfigNode, key: string): ConfigNode {
    node.(values := RemoveKey(node.values, key))
  }

  lemma {:induction false} SetInReads(values: seq<(string, string)>, key: string, value: string, k: string)
    ensures FirstValue(SetIn(values, key, value), k) == if k == key then Some(value) else FirstValue(values, k)
  {
    if values != [] && values[0].0 != key {
      SetInReads(values[1..], key, value, k);
    }
  }

  /** After `SetValue`, `key` reads `value` and every other key reads as before. */
  lemma SetValueReads(node: ConfigNode, key: string, value: string, k: string)
    ensures GetValue(SetValue(node, key, value), k) == if k == key then Some(value) else GetValue(node, k)
  {
    SetInReads(node.values, key, value, k);
  }

  lemma {:induction false} SetInAppends(values: seq<(string, string)>, key: string, value: string)
    requires forall i :: 0 <= i < |values| ==> values[i].0 != key
    ensures SetIn(values, key, value) == values + [(key, value)]
  {
    if values != [] {
      SetInAppends(values[1..], key, value);
    }
  }

  /** `node` holds no value under `key`. */
  predicate Lacks(node: ConfigNode, key: string) {
    forall i :: 0 <= i < |node.values| ==> node.values[i].0 != key
  }

  /** No two pairs of `pairs` share a key. */
  predicate DistinctKeys(pairs: seq<(string, string)>) {
    forall j, k :: 0 <= j < k < |pairs| ==> pairs[j].0 != pairs[k].0
  }

  /** Setting a key the node does not hold yet appends the pair at the end. */
  lemma SetValueAppends(node: ConfigNode, key: string, value: string)
    requires Lacks(node, key)
    ensures SetValue(node, key, value) == node.(values := node.values + [(key, value)])
  {
    SetInAppends(node.values, key, value);
  }

  /**
   * Writing the pairs of `pairs` one by one, with distinct keys, into a node that holds the
   * first `k` of them: the `k`-th write appends the `k`-th pair.
   */
  lemma SetNextPair(node: ConfigNode, pairs: seq<(string, string)>, k: nat)
    requires k < |pairs| && node.values == pairs[..k] && DistinctKeys(pairs)
    ensures SetValue(node, pairs[k].0, pairs[k].1) == node.(values := pairs[..k + 1])
    ensures k + 1 == |pairs| ==> SetValue(node, pairs[k].0, pairs[k].1) == node.(values := pairs)
  {
    SetValueAppends(node, pairs[k].0, pairs[k].1);
    assert pairs[..k] + [pairs[k]] == pairs[..k + 1];
    assert pairs[..|pairs|] == pairs;
  }

  /** In a list whose keys are distinct up to `k`, the `k`-th key reads the `k`-th value. */
  lemma {:induction false} FirstValueAt(pairs: seq<(string, string)>, k: nat)
    requires k < |pairs|
    requires forall j :: 0 <= j < k ==> pairs[j].0 != pairs[k].0
    ensures FirstValue(pairs, pairs[k].0) == Some(pairs[k].1)
  {
    if k > 0 {
      FirstValueAt(pairs[1..], k - 1);
    }
  }

  /** A key no pair carries reads nothing. */
  lemma {:induction false} FirstValueAbsent(pairs: seq<(string, string)>, key: string)
    requires forall j :: 0 <= j < |pairs| ==> pairs[j].0 != key
    ensures FirstValue(pairs, key) == None
  {
    if pairs != [] {
      FirstValueAbsent(pairs[1..], key);
    }
  }

  lemma {:induction false} RemoveKeyReads(values: seq<(string, string)>, key: string, k: string)
    ensures FirstValue(RemoveKey(values, key), k) == if k == key then None else FirstValue(values, k)
  {
    if values != [] {
      RemoveKeyReads(values[1..], key, k);
    }
  }

  /** Without `key`, the node reads no value under `key` and the same values under every other key. */
  lemma WithoutValueReads(node: ConfigNode, key: string, k: string)
    ensures GetValue(WithoutValue(node, key), k) == if k == key then None else GetValue(node, k)
  {
    RemoveKeyReads(node.values, key, k);
  }
}
