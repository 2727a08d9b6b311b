/** The recursive node tree of `.otb` and `.otbm` files (crates/formats/src/node.rs). */
module NodeTree {
  import opened World
  import opened Wire

  const START: uint8 := 0xFE
  const END: uint8 := 0xFF
  const ESCAPE: uint8 := 0xFD

  datatype Node = Node(kind: uint8, props: Bytes, children: seq<Node>)

  datatype FormatError = UnexpectedEof | InvalidNode

  datatype Result<+T> = Ok(value: T) | Err(error: FormatError)

  /** A node, and the position just past its end marker. */
  datatype Parsed = Parsed(node: Node, pos: nat)

  // ---------------------------------------------------------------------
  // Parsing
  // ---------------------------------------------------------------------

  /** The body of a node from `pos` on, given the props and children collected so far. */
  function Body(data: Bytes, pos: nat, kind: uint8, props: Bytes, children: seq<Node>): (r: Result<Parsed>)
    requires pos <= |data|
    ensures r.Ok? ==> pos < r.value.pos <= |data|
    decreases |data| - pos
  {
    if pos == |data| then Err(UnexpectedEof)
    else if data[pos] == START then
      if pos + 1 == |data| then Err(UnexpectedEof)
      else
        match Body(data, pos + 2, data[pos + 1], [], [])
        case Err(e) => Err(e)
        case Ok(child) => Body(data, child.pos, kind, props, children + [child.node])
    else if data[pos] == END then
      Ok(Parsed(Node(kind, props, children), pos + 1))
    else if data[pos] == ESCAPE then
      if pos + 1 == |data| then Err(UnexpectedEof)
      else Body(data, pos + 2, kind, props + [data[pos + 1]], children)
    else
      Body(data, pos + 1, kind, props + [data[pos]], children)
  }

  /** `parse_node`: the cursor strictly advances at every turn, so it stops on every input. */
  method ParseNode(data: Bytes, pos: nat, kind: uint8) returns (r: Result<Parsed>)
    requires pos <= |data|
    ensures r == Body(data, pos, kind, [], [])
    decreases |data| - pos
  {
    var props: Bytes := [];
    var children: seq<Node> := [];
    var p: nat := pos;
    while p < |data|
      invariant pos <= p <= |data|
      invariant Body(data, pos, kind, [], []) == Body(data, p, kind, props, children)
      decreases |data| - p
    {
      var byte := data[p];
      if byte == START {
        p := p + 1;
        if p == |data| {
          return Err(UnexpectedEof);
        }
        var childKind := data[p];
        p := p + 1;
        var child := ParseNode(data, p, childKind);
        if child.Err? {
          return Err(child.error);
        }
        children := children + [child.value.node];
        p := child.value.pos;
      } else if byte == END {
        p := p + 1;
        return Ok(Parsed(Node(kind, props, children), p));
      } else if byte == ESCAPE {
        p := p + 1;
        if p == |data| {
          return Err(UnexpectedEof);
        }
        props := props + [data[p]];
        p := p + 1;
      } else {
        props := props + [byte];
        p := p + 1;
      }
    }
    return Err(UnexpectedEof);
  }

  function Tree(data: Bytes): Result<Node> {
    if |data| < 6 then Err(UnexpectedEof)
    else if data[4] != START then Err(InvalidNode)
    else
      match Body(data, 6, data[5], [], [])
      case Err(e) => Err(e)
      case Ok(p) => Ok(p.node)
  }

  /** `parse_tree`: four bytes of identifier, then the root node. */
  method ParseTree(data: Bytes) returns (r: Result<Node>)
    ensures r == Tree(data)
  {
    if |data| < 6 {
      return Err(UnexpectedEof);
    }
    if data[4] != START {
      return Err(InvalidNode);
    }
    var p := ParseNode(data, 6, data[5]);
    match p
    case Err(e) => return Err(e);
    case Ok(v) => return Ok(v.node);
  }

  // ---------------------------------------------------------------------
  // The canonical writer
  // ---------------------------------------------------------------------

  predicate IsMarker(b: uint8) {
    b == START || b == END || b == ESCAPE
  }

  function EscapedByte(b: uint8): Bytes {
    if IsMarker(b) then [ESCAPE, b] else [b]
  }

  function Escaped(props: Bytes): Bytes {
    if props == [] then []
    else EscapedByte(props[0]) + Escaped(props[1..])
  }

  /** A node's bytes after its kind. */
  function BodyBytes(n: Node): Bytes
    decreases n, 0
  {
    Escaped(n.props) + ChildrenBytes(n.children) + [END]
  }

  function NodeBytes(n: Node): Bytes
    decreases n, 1
  {
    [START, n.kind] + BodyBytes(n)
  }

  function ChildrenBytes(ns: seq<Node>): Bytes
    decreases ns
  {
    if ns == [] then [] else NodeBytes(ns[0]) + ChildrenBytes(ns[1..])
  }

  // ---------------------------------------------------------------------
  // Parsing undoes writing
  // ---------------------------------------------------------------------

  /** `bytes` lie at `pos`. */
  predicate At(data: Bytes, pos: nat, bytes: Bytes) {
    pos + |bytes| <= |data| && data[pos..pos + |bytes|] == bytes
  }

  lemma AtSplit(data: Bytes, pos: nat, a: Bytes, b: Bytes)
    ensures At(data, pos, a + b) <==> At(data, pos, a) && At(data, pos + |a|, b)
  {
    if At(data, pos, a + b) {
      assert data[pos..pos + |a|] == data[pos..pos + |a + b|][..|a|] == a;
      assert data[pos + |a|..pos + |a| + |b|] == data[pos..pos + |a + b|][|a|..] == b;
    }
    if At(data, pos, a) && At(data, pos + |a|, b) {
      assert data[pos..pos + |a + b|] == data[pos..pos + |a|] + data[pos + |a|..pos + |a| + |b|];
    }
  }

  /** One property byte, escaped or not. */
  lemma PropParses(data: Bytes, pos: nat, kind: uint8, props: Bytes, children: seq<Node>, b: uint8)
    requires At(data, pos, EscapedByte(b))
    ensures Body(data, pos, kind, props, children)
         == Body(data, pos + |EscapedByte(b)|, kind, props + [b], children)
  {
    var e := EscapedByte(b);
    assert data[pos] == data[pos..pos + |e|][0] == e[0];
    if IsMarker(b) {
      assert data[pos + 1] == data[pos..pos + |e|][1] == b;
    }
  }

  lemma {:induction false} PropsParse(data: Bytes, pos: nat, kind: uint8, props: Bytes, children: seq<Node>, more: Bytes)
    requires At(data, pos, Escaped(more))
    ensures Body(data, pos, kind, props, children)
         == Body(data, pos + |Escaped(more)|, kind, props + more, children)
    decreases |more|
  {
    hide Body, At, EscapedByte;
    if more == [] {
      assert props + more == props;
    } else {
      var first := EscapedByte(more[0]);
      EscapedSplit(more);
      AtSplit(data, pos, first, Escaped(more[1..]));
      AtBounds(data, pos, first);
      PropParses(data, pos, kind, props, children, more[0]);
      PropsParse(data, pos + |first|, kind, props + [more[0]], children, more[1..]);
      assert (props + [more[0]]) + more[1..] == props + more;
    }
  }

  lemma EscapedSplit(props: Bytes)
    requires props != []
    ensures Escaped(props) == EscapedByte(props[0]) + Escaped(props[1..])
  {
  }

  lemma AtBounds(data: Bytes, pos: nat, bytes: Bytes)
    requires At(data, pos, bytes)
    ensures pos + |bytes| <= |data|
  {
  }

  /** A child node whose body parses is appended. */
  lemma ChildParses(data: Bytes, pos: nat, kind: uint8, props: Bytes, children: seq<Node>, n: Node, end: nat)
    requires At(data, pos, [START, n.kind]) && end <= |data|
    requires Body(data, pos + 2, n.kind, [], []) == Ok(Parsed(n, end))
    ensures Body(data, pos, kind, props, children) == Body(data, end, kind, props, children + [n])
  {
    assert data[pos] == data[pos..pos + 2][0] == START && data[pos + 1] == data[pos..pos + 2][1] == n.kind;
  }

  lemma {:induction false} ChildrenParse(data: Bytes, pos: nat, kind: uint8, props: Bytes, children: seq<Node>, more: seq<Node>)
    requires At(data, pos, ChildrenBytes(more))
    ensures Body(data, pos, kind, props, children)
         == Body(data, pos + |ChildrenBytes(more)|, kind, props, children + more)
    decreases more
  {
    hide Body, At, BodyBytes, NodeBytes;
    if more == [] {
      assert children + more == children;
    } else {
      var n := more[0];
      var rest := ChildrenBytes(more[1..]);
      assert ChildrenBytes(more) == NodeBytes(n) + rest;
      NodeSplit(n);
      AtSplit(data, pos, NodeBytes(n), rest);
      AtSplit(data, pos, [START, n.kind], BodyBytes(n));
      AtBounds(data, pos, NodeBytes(n));
      BodyParse(data, pos + 2, n);
      ChildParses(data, pos, kind, props, children, n, pos + |NodeBytes(n)|);
      ChildrenParse(data, pos + |NodeBytes(n)|, kind, props, children + [n], more[1..]);
      assert (children + [n]) + more[1..] == children + more;
    }
  }

  lemma NodeSplit(n: Node)
    ensures NodeBytes(n) == [START, n.kind] + BodyBytes(n) && |NodeBytes(n)| == 2 + |BodyBytes(n)|
  {
  }

  /** For every node, whatever bytes surround it: parsing the written body gives the node back, with the
      cursor just past its end marker. */
  lemma {:induction false} BodyParse(data: Bytes, pos: nat, n: Node)
    requires At(data, pos, BodyBytes(n))
    ensures Body(data, pos, n.kind, [], []) == Ok(Parsed(n, pos + |BodyBytes(n)|))
    decreases n
  {
    hide Escaped, ChildrenBytes, At, Body;
    var e, c := Escaped(n.props), ChildrenBytes(n.children);
    AtSplit(data, pos, e + c, [END]);
    AtSplit(data, pos, e, c);
    PropsParse(data, pos, n.kind, [], [], n.props);
    assert [] + n.props == n.props && [] + n.children == n.children;
    ChildrenParse(data, pos + |e|, n.kind, n.props, [], n.children);
    EndParse(data, pos + |e + c|, n);
  }

  lemma EndParse(data: Bytes, pos: nat, n: Node)
    requires At(data, pos, [END])
    ensures Body(data, pos, n.kind, n.props, n.children) == Ok(Parsed(n, pos + 1))
  {
    assert data[pos] == data[pos..pos + 1][0] == END;
  }

  /** `parse_tree` is a left inverse of the writer, for every tree, identifier and trailing bytes. */
  lemma TreeRoundTrip(identifier: Bytes, n: Node, suffix: Bytes)
    requires |identifier| == 4
    ensures Tree(identifier + NodeBytes(n) + suffix) == Ok(n)
  {
    var data := identifier + NodeBytes(n) + suffix;
    assert |BodyBytes(n)| >= 1;
    assert data[4] == NodeBytes(n)[0] == START && data[5] == NodeBytes(n)[1] == n.kind;
    assert data[6..6 + |BodyBytes(n)|] == BodyBytes(n);
    BodyParse(data, 6, n);
  }

  /** The written form determines the tree. */
  lemma WriterInjective(m: Node, n: Node)
    requires NodeBytes(m) == NodeBytes(n)
    ensures m == n
  {
    TreeRoundTrip([0, 0, 0, 0], m, []);
    TreeRoundTrip([0, 0, 0, 0], n, []);
  }

  /** A successful parse looks at nothing past the end marker it stopped at. */
  lemma {:induction false} BodyLocal(data: Bytes, more: Bytes, pos: nat, kind: uint8, props: Bytes, children: seq<Node>)
    requires pos <= |data| && Body(data, pos, kind, props, children).Ok?
    ensures Body(data + more, pos, kind, props, children) == Body(data, pos, kind, props, children)
    decreases |data| - pos
  {
    if data[pos] == START {
      BodyLocal(data, more, pos + 2, data[pos + 1], [], []);
      var child := Body(data, pos + 2, data[pos + 1], [], []).value;
      BodyLocal(data, more, child.pos, kind, props, children + [child.node]);
    } else if data[pos] == END {
    } else if data[pos] == ESCAPE {
      BodyLocal(data, more, pos + 2, kind, props + [data[pos + 1]], children);
    } else {
      BodyLocal(data, more, pos + 1, kind, props + [data[pos]], children);
    }
  }

  /** Every prefix of a written node is rejected as truncated: its end marker is the last byte needed. */
  lemma TruncationRejected(data: Bytes, cut: nat, pos: nat, kind: uint8)
    requires pos <= cut <= |data|
    requires Body(data, pos, kind, [], []).Ok? && cut < Body(data, pos, kind, [], []).value.pos
    ensures Body(data[..cut], pos, kind, [], []) == Err(UnexpectedEof)
  {
    assert data == data[..cut] + data[cut..];
    if Body(data[..cut], pos, kind, [], []).Ok? {
      BodyLocal(data[..cut], data[cut..], pos, kind, [], []);
      assert false;
    }
    OnlyEof(data[..cut], pos, kind, [], []);
  }

  /** The only way the body of a node fails to parse is by running out of bytes. */
  lemma {:induction false} OnlyEof(data: Bytes, pos: nat, kind: uint8, props: Bytes, children: seq<Node>)
    requires pos <= |data| && Body(data, pos, kind, props, children).Err?
    ensures Body(data, pos, kind, props, children).error == UnexpectedEof
    decreases |data| - pos
  {
    if pos + 1 < |data| {
      if data[pos] == START {
        var child := Body(data, pos + 2, data[pos + 1], [], []);
        if child.Err? {
          OnlyEof(data, pos + 2, data[pos + 1], [], []);
        } else {
          OnlyEof(data, child.value.pos, kind, props, children + [child.value.node]);
        }
      } else if data[pos] == ESCAPE {
        OnlyEof(data, pos + 2, kind, props + [data[pos + 1]], children);
      } else if data[pos] != END {
        OnlyEof(data, pos + 1, kind, props + [data[pos]], children);
      }
    }
  }
}
