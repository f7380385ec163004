// ComfyUI's API-format workflow: a dictionary from node id to a node,
// where a node has a class type, a title and an ordered dictionary of
// inputs. An input is either a JSON scalar or a link `[node_id, output]`
// to an output slot of another node of the same dictionary.

module Workflow {
  import opened Options

  /**
   * The value of one input. Numbers and model names are kept as opaque
   * constants; a floating-point literal keeps only its text.
   */
  datatype Value<Id> =
    | Text(s: string)
    | Int(n: int)
    | Float(literal: string)
    | Bool(b: bool)
    | Link(node: Id, output: nat)

  /** `{"inputs": {...}, "class_type": ..., "_meta": {"title": ...}}` */
  datatype Node<Id> = Node(classType: string, title: string, inputs: seq<(string, Value<Id>)>)

  /** The whole workflow dictionary, keyed by node id. */
  type Graph<Id> = map<Id, Node<Id>>

  /** Every link of every node names a node of the same graph. */
  ghost predicate LinksResolve<Id>(g: Graph<Id>) {
    forall id, i :: id in g && 0 <= i < |g[id].inputs| && g[id].inputs[i].1.Link? ==>
      g[id].inputs[i].1.node in g
  }

  /** `node["inputs"].get(name)`: the value stored under `name`, if any. */
  function Input<Id>(n: Node<Id>, name: string): Option<Value<Id>>
    decreases |n.inputs|
  {
    if |n.inputs| == 0 then None
    else if n.inputs[0].0 == name then Some(n.inputs[0].1)
    else Input(Node(n.classType, n.title, n.inputs[1..]), name)
  }

  /** The lookup finds nothing exactly when no entry has the name, and
    * what it finds is stored under that name. */
  lemma {:induction false} InputMembers<Id>(n: Node<Id>, name: string)
    ensures Input(n, name).None? <==> forall i :: 0 <= i < |n.inputs| ==> n.inputs[i].0 != name
    ensures Input(n, name).Some? ==> exists i :: 0 <= i < |n.inputs| && n.inputs[i] == (name, Input(n, name).value)
    decreases |n.inputs|
  {
    if |n.inputs| > 0 && n.inputs[0].0 != name {
      var rest := Node(n.classType, n.title, n.inputs[1..]);
      InputMembers(rest, name);
      assert forall i :: 1 <= i < |n.inputs| ==> rest.inputs[i - 1] == n.inputs[i];
      if Input(n, name).Some? {
        var i :| 0 <= i < |rest.inputs| && rest.inputs[i] == (name, Input(n, name).value);
        assert n.inputs[i + 1] == rest.inputs[i];
      }
    }
  }

  /** The value under `name` is that of its first entry. */
  lemma {:induction false} InputAt<Id>(n: Node<Id>, i: nat, name: string)
    requires i < |n.inputs| && n.inputs[i].0 == name
    requires forall j :: 0 <= j < i ==> n.inputs[j].0 != name
    ensures Input(n, name) == Some(n.inputs[i].1)
    decreases i
  {
    if i > 0 {
      var rest := Node(n.classType, n.title, n.inputs[1..]);
      assert rest.inputs[i - 1] == n.inputs[i];
      InputAt(rest, i - 1, name);
    }
  }

  /** The names of the inputs set to `true`, in dictionary order. */
  function TrueInputs<Id>(inputs: seq<(string, Value<Id>)>): seq<string> {
    if |inputs| == 0 then []
    else if inputs[0].1 == Bool(true) then [inputs[0].0] + TrueInputs(inputs[1..])
    else TrueInputs(inputs[1..])
  }

  /** A name is listed exactly when some entry sets it to `true`. */
  lemma {:induction false} TrueInputsMembers<Id>(inputs: seq<(string, Value<Id>)>)
    ensures forall name :: name in TrueInputs(inputs) <==> exists i :: 0 <= i < |inputs| && inputs[i] == (name, Bool(true))
    ensures |TrueInputs(inputs)| <= |inputs|
    decreases |inputs|
  {
    if |inputs| > 0 {
      TrueInputsMembers(inputs[1..]);
      assert forall i :: 1 <= i < |inputs| ==> inputs[1..][i - 1] == inputs[i];
      forall name | exists i :: 0 <= i < |inputs| && inputs[i] == (name, Bool(true))
        ensures name in TrueInputs(inputs)
      {
        var i :| 0 <= i < |inputs| && inputs[i] == (name, Bool(true));
        if i > 0 {
          assert inputs[1..][i - 1] == (name, Bool(true));
        }
      }
    }
  }

  /** A `LoadImage` node whose only input is the file name to load. */
  function LoadImage<Id>(title: string, image: string): Node<Id> {
    Node("LoadImage", title, [("image", Text(image))])
  }
}
