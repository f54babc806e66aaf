/** A model file as a tree of messages, and the tensors found in it. */
module GraphMessages {

  datatype Tensor = Tensor(external: bool, entries: seq<(string, string)>, rest: string)

  /** A message is a tensor, or its other fields and the messages under it in field order. */
  datatype Message = Leaf(tensor: Tensor) | Branch(fields: string, children: seq<Message>)

  /** Initializers and tensor attributes, nested subgraphs included, in the order they are visited. */
  function Tensors(m: Message): seq<Tensor> {
    match m
    case Leaf(tensor) => [tensor]
    case Branch(_, children) => AllTensors(children)
  }

  function AllTensors(children: seq<Message>): seq<Tensor> {
    if children == [] then [] else Tensors(children[0]) + AllTensors(children[1..])
  }

  /** The tree with its tensors, in order, replaced. */
  function Replace(m: Message, tensors: seq<Tensor>): Message
    requires |tensors| == |Tensors(m)|
  {
    match m
    case Leaf(_) => Leaf(tensors[0])
    case Branch(fields, children) => Branch(fields, ReplaceAll(children, tensors))
  }

  function ReplaceAll(children: seq<Message>, tensors: seq<Tensor>): seq<Message>
    requires |tensors| == |AllTensors(children)|
  {
    if children == [] then []
    else
      var n := |Tensors(children[0])|;
      [Replace(children[0], tensors[..n])] + ReplaceAll(children[1..], tensors[n..])
  }

  lemma {:induction false} ReplacedTensors(m: Message, tensors: seq<Tensor>)
    requires |tensors| == |Tensors(m)|
    ensures Tensors(Replace(m, tensors)) == tensors
  {
    if m.Branch? {
      AllReplaced(m.children, tensors);
    }
  }

  lemma {:induction false} AllReplaced(children: seq<Message>, tensors: seq<Tensor>)
    requires |tensors| == |AllTensors(children)|
    ensures AllTensors(ReplaceAll(children, tensors)) == tensors
  {
    if children != [] {
      var n := |Tensors(children[0])|;
      ReplacedTensors(children[0], tensors[..n]);
      AllReplaced(children[1..], tensors[n..]);
      TensorsCons(Replace(children[0], tensors[..n]), ReplaceAll(children[1..], tensors[n..]));
      assert tensors == tensors[..n] + tensors[n..];
    }
  }

  lemma {:induction false} TensorsCons(first: Message, rest: seq<Message>)
    ensures AllTensors([first] + rest) == Tensors(first) + AllTensors(rest)
  {
    assert ([first] + rest)[1..] == rest;
  }

  /** Only the tensors tell a tree from the one it was made from. */
  lemma {:induction false} ReplacedTwice(m: Message, first: seq<Tensor>, second: seq<Tensor>)
    requires |first| == |second| == |Tensors(m)|
    ensures |Tensors(Replace(m, first))| == |second| && Replace(Replace(m, first), second) == Replace(m, second)
  {
    ReplacedTensors(m, first);
    if m.Branch? {
      AllReplacedTwice(m.children, first, second);
    }
  }

  lemma {:induction false} AllReplacedTwice(children: seq<Message>, first: seq<Tensor>, second: seq<Tensor>)
    requires |first| == |second| == |AllTensors(children)|
    ensures |AllTensors(ReplaceAll(children, first))| == |second|
    ensures ReplaceAll(ReplaceAll(children, first), second) == ReplaceAll(children, second)
  {
    AllReplaced(children, first);
    if children != [] {
      var n := |Tensors(children[0])|;
      ReplacedTensors(children[0], first[..n]);
      ReplacedTwice(children[0], first[..n], second[..n]);
      AllReplacedTwice(children[1..], first[n..], second[n..]);
      assert ReplaceAll(children, first)[1..] == ReplaceAll(children[1..], first[n..]);
    }
  }

  lemma {:induction false} ReplacedSame(m: Message)
    ensures Replace(m, Tensors(m)) == m
  {
    if m.Branch? {
      AllSame(m.children);
    }
  }

  lemma {:induction false} AllSame(children: seq<Message>)
    ensures ReplaceAll(children, AllTensors(children)) == children
  {
    if children != [] {
      var n := |Tensors(children[0])|;
      ReplacedSame(children[0]);
      AllSame(children[1..]);
      assert AllTensors(children)[..n] == Tensors(children[0]) && AllTensors(children)[n..] == AllTensors(children[1..]);
    }
  }
}
