/**
 * A decoded JSON document and the evaluation of a JSONPath made only of child
 * segments with name selectors (`.name`) and wildcard selectors (`[*]`), as in
 * sections 2.3.1 and 2.3.2 of RFC 9535.
 *
 * A path is evaluated over a working list of nodes, initially the root alone;
 * each step maps every node to the nodes it selects, keeping document order.
 */
module JsonPath {
  import opened Wrappers

  datatype Json =
    | Null
    | Bool(b: bool)
    | Num(n: int)
    | Str(s: string)
    | Arr(items: seq<Json>)
    | Obj(members: map<string, Json>)

  datatype Step = Field(name: string) | Wildcard

  type Path = seq<Step>

  /** The nodes that one step selects from one node: a named member of an object, or every element of an array. */
  function Select(node: Json, step: Step): seq<Json>
  {
    match step
    case Field(name) => if node.Obj? && name in node.members then [node.members[name]] else []
    case Wildcard => if node.Arr? then node.items else []
  }

  /** One step applied to a whole working list, in order. */
  function SelectAll(nodes: seq<Json>, step: Step): seq<Json>
  {
    if nodes == [] then [] else Select(nodes[0], step) + SelectAll(nodes[1..], step)
  }

  /** The working list after every step of `path`. */
  function Eval(nodes: seq<Json>, path: Path): seq<Json>
    decreases |path|
  {
    if path == [] then nodes else Eval(SelectAll(nodes, path[0]), path[1..])
  }

  /** The values a path matches in a document (`$` is the document itself). */
  function Find(doc: Json, path: Path): seq<Json>
  {
    Eval([doc], path)
  }

  /** The matches of `path` below each node, concatenated in the nodes' order. */
  function FindEach(nodes: seq<Json>, path: Path): seq<Json>
  {
    if nodes == [] then [] else Find(nodes[0], path) + FindEach(nodes[1..], path)
  }

  /** A chain of name selectors. */
  function Fields(names: seq<string>): (p: Path)
    ensures |p| == |names| && forall i :: 0 <= i < |names| ==> p[i] == Field(names[i])
  {
    if names == [] then [] else [Field(names[0])] + Fields(names[1..])
  }

  /** Follows a chain of member names from a node; None as soon as a member is missing. */
  function Lookup(node: Json, names: seq<string>): Option<Json>
  {
    if names == [] then Some(node)
    else if node.Obj? && names[0] in node.members then Lookup(node.members[names[0]], names[1..])
    else None
  }

  // ---------------------------------------------------------------------------
  // Properties of path evaluation
  // ---------------------------------------------------------------------------

  lemma {:induction false} SelectAllAppend(a: seq<Json>, b: seq<Json>, step: Step)
    ensures SelectAll(a + b, step) == SelectAll(a, step) + SelectAll(b, step)
  {
    if a == [] {
      assert a + b == b;
    } else {
      assert (a + b)[1..] == a[1..] + b;
      SelectAllAppend(a[1..], b, step);
    }
  }

  /** Evaluation distributes over the working list: matches of a longer list are the matches of its parts, in order. */
  lemma {:induction false} EvalAppend(a: seq<Json>, b: seq<Json>, path: Path)
    ensures Eval(a + b, path) == Eval(a, path) + Eval(b, path)
    decreases |path|
  {
    if path != [] {
      SelectAllAppend(a, b, path[0]);
      EvalAppend(SelectAll(a, path[0]), SelectAll(b, path[0]), path[1..]);
    }
  }

  /** An empty working list stays empty: a branch that matched nothing contributes nothing. */
  lemma {:induction false} EvalEmpty(path: Path)
    ensures Eval([], path) == []
    decreases |path|
  {
    if path != [] {
      assert SelectAll([], path[0]) == [];
      EvalEmpty(path[1..]);
    }
  }

  /** Evaluating over a list is finding below each node in turn. */
  lemma {:induction false} EvalIsFindEach(nodes: seq<Json>, path: Path)
    ensures Eval(nodes, path) == FindEach(nodes, path)
  {
    if nodes == [] {
      EvalEmpty(path);
    } else {
      assert nodes == [nodes[0]] + nodes[1..];
      EvalAppend([nodes[0]], nodes[1..], path);
      EvalIsFindEach(nodes[1..], path);
    }
  }

  /** A leading `[*]` on an array: the matches are those of the rest of the path in each element, element by element. */
  lemma FindWildcard(node: Json, rest: Path)
    ensures Find(node, [Wildcard] + rest) == if node.Arr? then FindEach(node.items, rest) else []
  {
    assert ([Wildcard] + rest)[1..] == rest;
    assert SelectAll([node], Wildcard) == Select(node, Wildcard);
    if node.Arr? {
      EvalIsFindEach(node.items, rest);
    } else {
      EvalEmpty(rest);
    }
  }

  /** A leading `.name`: the matches below that member, or none when the node lacks it. */
  lemma FindField(node: Json, name: string, rest: Path)
    ensures Find(node, [Field(name)] + rest)
         == if node.Obj? && name in node.members then Find(node.members[name], rest) else []
  {
    assert ([Field(name)] + rest)[1..] == rest;
    assert SelectAll([node], Field(name)) == Select(node, Field(name));
    if !(node.Obj? && name in node.members) {
      EvalEmpty(rest);
    }
  }

  /** A chain of names followed by the rest of a path: the rest is found below the member the chain reaches, if any. */
  lemma {:induction false} FindFields(node: Json, names: seq<string>, rest: Path)
    ensures Find(node, Fields(names) + rest)
         == match Lookup(node, names) case Some(v) => Find(v, rest) case None => []
  {
    if names == [] {
      assert Fields(names) + rest == rest;
    } else {
      assert Fields(names) + rest == [Field(names[0])] + (Fields(names[1..]) + rest);
      FindField(node, names[0], Fields(names[1..]) + rest);
      if node.Obj? && names[0] in node.members {
        FindFields(node.members[names[0]], names[1..], rest);
      } else {
        EvalEmpty(Fields(names[1..]) + rest);
      }
    }
  }

  lemma {:induction false} FindEachAppend(a: seq<Json>, b: seq<Json>, path: Path)
    ensures FindEach(a + b, path) == FindEach(a, path) + FindEach(b, path)
  {
    if a == [] {
      assert a + b == b;
    } else {
      assert (a + b)[1..] == a[1..] + b;
      FindEachAppend(a[1..], b, path);
    }
  }

  /** A single chain of one-member objects ending in `leaf`. */
  function Nest(names: seq<string>, leaf: Json): Json
  {
    if names == [] then leaf else Obj(map[names[0] := Nest(names[1..], leaf)])
  }

  lemma {:induction false} LookupNest(names: seq<string>, leaf: Json)
    ensures Lookup(Nest(names, leaf), names) == Some(leaf)
  {
    if names != [] {
      LookupNest(names[1..], leaf);
    }
  }
}
