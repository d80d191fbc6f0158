/** The records of src/types/types.ts that the evaluator and the node check work on.
    Layout fields (position, size, dragging, selection) and the change callback
    belong to the rendering layer and are not part of this model. */
module Types {
  import opened Wrappers

  /** The three block kinds; `Tag` gives the string a block carries in its `type` field. */
  datatype Kind = Primitive | Operator | Result

  function Tag(k: Kind): string
  {
    match k
    case Primitive => "primitive"
    case Operator => "operator"
    case Result => "result"
  }

  /** Reads a `type` string back as a kind; every string that is not a kind's tag is refused. */
  function KindOfTag(tag: string): (k: Option<Kind>)
    ensures k.Some? ==> Tag(k.value) == tag
    ensures k.None? ==> forall other: Kind :: Tag(other) != tag
  {
    if tag == "primitive" then Some(Primitive)
    else if tag == "operator" then Some(Operator)
    else if tag == "result" then Some(Result)
    else None
  }

  lemma TagRoundTrip(k: Kind)
    ensures KindOfTag(Tag(k)) == Some(k)
    ensures forall other: Kind :: Tag(other) == Tag(k) ==> other == k
  {
  }

  /** The data a block shows: its label (`caption`, since `label` is a Dafny keyword) and its value, where `None` is `null`. */
  datatype NodeData = NodeData(caption: string, value: Option<string>)

  datatype Node = Node(id: string, kind: Kind, data: NodeData)
}
