/** The node chain of the dummy ONNX model generator (create_dummy_onnx_model.py).
    `size` Identity operations are chained from the graph input `input` to the
    graph output `output`; the onnx helper calls that wrap the nodes into a graph,
    a model and a file are not modelled. */
module DummyModel {

  const INPUT_NAME := "input"
  const OUTPUT_NAME := "output"
  const NODE_PREFIX := "identity_"
  const INTERMEDIATE_PREFIX := "intermediate_output_"

  /** One `helper.make_node('Identity', [input], [output], name=name)`. */
  datatype Node = Node(name: string, opType: string, input: string, output: string)

  // ---------------------------------------------------------------------------
  // Decimal rendering of a non-negative int, as an f-string renders it
  // ---------------------------------------------------------------------------

  function DigitChar(d: nat): (c: char)
    requires d < 10
    ensures '0' <= c <= '9'
  {
    (48 + d) as char
  }

  function DigitValue(c: char): nat
  {
    if '0' <= c <= '9' then (c as int - 48) as nat else 0
  }

  /** `f'{n}'` for n >= 0: the decimal digits of n, most significant first,
      without leading zeros. */
  function NatToDecimal(n: nat): (s: string)
    ensures 1 <= |s|
  {
    if n < 10 then [DigitChar(n)] else NatToDecimal(n / 10) + [DigitChar(n % 10)]
  }

  /** Reads a string of decimal digits back as a number (the inverse of NatToDecimal). */
  function DecimalValue(s: string): nat
  {
    if s == [] then 0 else DecimalValue(s[..|s| - 1]) * 10 + DigitValue(s[|s| - 1])
  }

  lemma {:induction false} DecimalRoundTrip(n: nat)
    ensures DecimalValue(NatToDecimal(n)) == n
  {
    var s := NatToDecimal(n);
    if n < 10 {
      assert s[..|s| - 1] == [];
    } else {
      assert s[..|s| - 1] == NatToDecimal(n / 10);
      DecimalRoundTrip(n / 10);
    }
  }

  /** Distinct numbers are rendered as distinct strings. */
  lemma DecimalInjective(a: nat, b: nat)
    requires a != b
    ensures NatToDecimal(a) != NatToDecimal(b)
  {
    DecimalRoundTrip(a);
    DecimalRoundTrip(b);
  }

  lemma PrefixedInjective(p: string, a: nat, b: nat)
    requires a != b
    ensures p + NatToDecimal(a) != p + NatToDecimal(b)
  {
    DecimalInjective(a, b);
    assert (p + NatToDecimal(a))[|p|..] == NatToDecimal(a);
    assert (p + NatToDecimal(b))[|p|..] == NatToDecimal(b);
  }

  // ---------------------------------------------------------------------------
  // The chain
  // ---------------------------------------------------------------------------

  /** `f'identity_{k}'` */
  function NodeName(k: nat): string
  {
    NODE_PREFIX + NatToDecimal(k)
  }

  /** The output name of node k in a chain of `size` nodes: `output` for the
      last one, `f'intermediate_output_{k}'` for every earlier one. */
  function OutputNameAt(k: nat, size: int): string
  {
    if k < size - 1 then INTERMEDIATE_PREFIX + NatToDecimal(k) else OUTPUT_NAME
  }

  /** The shape the construction loop promises: node k is `identity_k` with op
      type Identity; node 0 reads the graph input and every later node reads its
      predecessor's output; the last node writes the graph output and every
      earlier node writes `intermediate_output_k`. */
  ghost predicate IsIdentityChain(nodes: seq<Node>)
  {
    && (forall k :: 0 <= k < |nodes| ==>
          && nodes[k].name == NodeName(k)
          && nodes[k].opType == "Identity"
          && nodes[k].output == OutputNameAt(k, |nodes|))
    && (|nodes| > 0 ==> nodes[0].input == INPUT_NAME)
    && (forall k :: 0 < k < |nodes| ==> nodes[k].input == nodes[k - 1].output)
  }

  /** The `for i in range(size)` loop of `create_dummy_onnx_model`. */
  method BuildChain(size: int) returns (nodes: seq<Node>)
    ensures |nodes| == if size > 0 then size else 0
    ensures IsIdentityChain(nodes)
  {
    nodes := [];
    var currentInputName := INPUT_NAME;
    var i := 0;
    while i < size
      invariant 0 <= i <= (if size > 0 then size else 0)
      invariant |nodes| == i
      invariant forall k :: 0 <= k < i ==>
        nodes[k].name == NodeName(k) && nodes[k].opType == "Identity" && nodes[k].output == OutputNameAt(k, size)
      invariant i > 0 ==> nodes[0].input == INPUT_NAME
      invariant forall k :: 0 < k < i ==> nodes[k].input == nodes[k - 1].output
      invariant currentInputName == if i == 0 then INPUT_NAME else nodes[i - 1].output
    {
      var nodeName := NodeName(i);
      var currentOutputName := OutputNameAt(i, size);
      nodes := nodes + [Node(nodeName, "Identity", currentInputName, currentOutputName)];
      currentInputName := currentOutputName;
      i := i + 1;
    }
    assert nodes != [] ==> |nodes| == size;
  }

  /** Node names are pairwise distinct. */
  lemma ChainNamesDistinct(nodes: seq<Node>)
    requires IsIdentityChain(nodes)
    ensures forall i, j :: 0 <= i < j < |nodes| ==> nodes[i].name != nodes[j].name
  {
    forall i, j | 0 <= i < j < |nodes|
      ensures nodes[i].name != nodes[j].name
    {
      PrefixedInjective(NODE_PREFIX, i, j);
    }
  }

  lemma IntermediateIsNotBoundary(k: nat)
    ensures INTERMEDIATE_PREFIX + NatToDecimal(k) != OUTPUT_NAME
    ensures INTERMEDIATE_PREFIX + NatToDecimal(k) != INPUT_NAME
  {
  }

  /** Output names are pairwise distinct, so every tensor has exactly one
      producer, and no node writes the graph input. */
  lemma ChainOutputsDistinct(nodes: seq<Node>)
    requires IsIdentityChain(nodes)
    ensures forall i, j :: 0 <= i < j < |nodes| ==> nodes[i].output != nodes[j].output
    ensures forall i :: 0 <= i < |nodes| ==> nodes[i].output != INPUT_NAME
  {
    forall i, j | 0 <= i < j < |nodes|
      ensures nodes[i].output != nodes[j].output
    {
      IntermediateIsNotBoundary(i);
      if j < |nodes| - 1 {
        PrefixedInjective(INTERMEDIATE_PREFIX, i, j);
      }
    }
    forall i | 0 <= i < |nodes|
      ensures nodes[i].output != INPUT_NAME
    {
      IntermediateIsNotBoundary(i);
    }
  }

  /** The declared graph output `output` is produced by exactly the last node,
      so it has a producer iff the chain is non-empty (size > 0). */
  lemma ChainProducesGraphOutput(nodes: seq<Node>)
    requires IsIdentityChain(nodes)
    ensures forall i :: 0 <= i < |nodes| ==> (nodes[i].output == OUTPUT_NAME <==> i == |nodes| - 1)
    ensures (exists i :: 0 <= i < |nodes| && nodes[i].output == OUTPUT_NAME) <==> |nodes| > 0
  {
    forall i | 0 <= i < |nodes| - 1
      ensures nodes[i].output != OUTPUT_NAME
    {
      IntermediateIsNotBoundary(i);
    }
    if |nodes| > 0 {
      assert nodes[|nodes| - 1].output == OUTPUT_NAME;
    }
  }
}
