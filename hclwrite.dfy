/** The part of hclwrite that the exporter drives, as plain values: tokens,
    attribute expressions, blocks with ordered bodies, and files. Formatting
    (indentation, alignment) is not modelled. */
module HclWrite {
  import opened Wrappers
  import Cty

  datatype TokenKind = OHeredoc | QuotedLit | Newline | CHeredoc

  datatype Token = Token(kind: TokenKind, bytes: string)

  /** The right-hand side of an attribute: a cty value (SetAttributeValue)
      or raw tokens (SetAttributeRaw). */
  datatype Expr = Value(v: Cty.Value) | Raw(tokens: seq<Token>)

  /** One element of a body, in the order it will be written: an attribute,
      a nested block, or an empty line (AppendNewline). */
  datatype Item = Attribute(name: string, expr: Expr) | Nested(block: Block) | Blank

  datatype Block = Block(kind: string, labels: seq<string>, body: seq<Item>)

  datatype File = File(blocks: seq<Block>)

  /** Names of the attributes directly in a body (not in nested blocks). */
  function AttributeNames(body: seq<Item>): set<string> {
    set i | 0 <= i < |body| && body[i].Attribute? :: body[i].name
  }

  /** Body.SetAttributeValue / SetAttributeRaw: replaces the expression of the
      attribute with that name if there is one, otherwise appends a new
      attribute at the end of the body. */
  function SetAttribute(body: seq<Item>, name: string, e: Expr): seq<Item> {
    if |body| == 0 then [Attribute(name, e)]
    else if body[0].Attribute? && body[0].name == name then [Attribute(name, e)] + body[1..]
    else [body[0]] + SetAttribute(body[1..], name, e)
  }

  lemma AttributeNamesConcat(a: seq<Item>, b: seq<Item>)
    ensures AttributeNames(a + b) == AttributeNames(a) + AttributeNames(b)
  {
    forall n | n in AttributeNames(a + b) ensures n in AttributeNames(a) + AttributeNames(b) {
      var i :| 0 <= i < |a + b| && (a + b)[i].Attribute? && (a + b)[i].name == n;
      if i >= |a| { assert b[i - |a|] == (a + b)[i]; }
    }
    forall n | n in AttributeNames(a) ensures n in AttributeNames(a + b) {
      var i :| 0 <= i < |a| && a[i].Attribute? && a[i].name == n;
      assert (a + b)[i] == a[i];
    }
    forall n | n in AttributeNames(b) ensures n in AttributeNames(a + b) {
      var i :| 0 <= i < |b| && b[i].Attribute? && b[i].name == n;
      assert (a + b)[i + |a|] == b[i];
    }
  }

  /** The names of a one-item body. */
  lemma OneName(item: Item)
    ensures AttributeNames([item]) == if item.Attribute? then {item.name} else {}
  {
    assert [item][0] == item;
  }

  /** The rest of a body has no names the body lacks. */
  lemma AttributeNamesTail(body: seq<Item>)
    requires |body| > 0
    ensures AttributeNames(body[1..]) <= AttributeNames(body)
    ensures body[0].Attribute? ==> body[0].name in AttributeNames(body)
  {
    forall n | n in AttributeNames(body[1..]) ensures n in AttributeNames(body) {
      var i :| 0 <= i < |body[1..]| && body[1..][i].Attribute? && body[1..][i].name == n;
      assert body[i + 1] == body[1..][i];
    }
  }

  /** Setting an attribute the body does not have appends it. */
  lemma {:induction false} SetAttributeAbsent(body: seq<Item>, name: string, e: Expr)
    requires name !in AttributeNames(body)
    ensures SetAttribute(body, name, e) == body + [Attribute(name, e)]
    decreases |body|
  {
    if |body| > 0 {
      AttributeNamesTail(body);
      SetAttributeAbsent(body[1..], name, e);
      assert [body[0]] + body[1..] == body;
    }
  }

  /** Setting an attribute that only the last item of the body carries
      replaces that item's expression. */
  lemma {:induction false} SetAttributeLast(body: seq<Item>, name: string, e0: Expr, e: Expr)
    requires name !in AttributeNames(body)
    ensures SetAttribute(body + [Attribute(name, e0)], name, e) == body + [Attribute(name, e)]
    decreases |body|
  {
    if |body| > 0 {
      AttributeNamesTail(body);
      SetAttributeLast(body[1..], name, e0, e);
      assert (body + [Attribute(name, e0)])[1..] == body[1..] + [Attribute(name, e0)];
      assert [body[0]] + body[1..] == body;
    }
  }

  /** A body whose names are among `names`, given an attribute named outside
      them: setting it appends it, and the names stay among `names` + {name}. */
  lemma SetAttributeFresh(body: seq<Item>, names: set<string>, name: string, e: Expr)
    requires AttributeNames(body) <= names && name !in names
    ensures SetAttribute(body, name, e) == body + [Attribute(name, e)]
    ensures AttributeNames(body + [Attribute(name, e)]) <= names + {name}
  {
    SetAttributeAbsent(body, name, e);
    AttributeNamesConcat(body, [Attribute(name, e)]);
    OneName(Attribute(name, e));
  }

  /** Appending an item that is not an attribute adds no name. */
  lemma AppendItemNames(body: seq<Item>, item: Item)
    requires !item.Attribute?
    ensures AttributeNames(body + [item]) == AttributeNames(body)
  {
    AttributeNamesConcat(body, [item]);
    OneName(item);
  }

  /** Body.FirstMatchingBlock: the index of the first block of that kind
      with exactly those labels, if there is one. */
  function FirstMatchingBlock(blocks: seq<Block>, kind: string, labels: seq<string>): (r: Option<nat>)
    ensures r.Some? ==> r.value < |blocks| && blocks[r.value].kind == kind && blocks[r.value].labels == labels
    ensures r.Some? ==> forall j :: 0 <= j < r.value ==> !(blocks[j].kind == kind && blocks[j].labels == labels)
    ensures r.None? ==> forall j :: 0 <= j < |blocks| ==> !(blocks[j].kind == kind && blocks[j].labels == labels)
  {
    if |blocks| == 0 then None
    else if blocks[0].kind == kind && blocks[0].labels == labels then Some(0)
    else match FirstMatchingBlock(blocks[1..], kind, labels)
      case None => None
      case Some(k) => Some(k + 1)
  }

  /** hclwrite's GetAttribute: the expression of the first attribute with
      that name directly in the body. */
  function AttributeOf(body: seq<Item>, name: string): (r: Option<Expr>)
    ensures r.Some? <==> name in AttributeNames(body)
  {
    if |body| == 0 then None
    else if body[0].Attribute? && body[0].name == name then Some(body[0].expr)
    else
      AttributeNamesConcat([body[0]], body[1..]);
      OneName(body[0]);
      assert [body[0]] + body[1..] == body;
      AttributeOf(body[1..], name)
  }

  /** The first attribute with the name is the one read. */
  lemma {:induction false} AttributeOfAt(body: seq<Item>, name: string, i: nat)
    requires i < |body| && body[i].Attribute? && body[i].name == name
    requires forall j :: 0 <= j < i ==> !(body[j].Attribute? && body[j].name == name)
    ensures AttributeOf(body, name) == Some(body[i].expr)
    decreases i
  {
    if i > 0 {
      AttributeOfAt(body[1..], name, i - 1);
    }
  }

  /** A body without an attribute of that name reads as None. */
  lemma AttributeOfAbsent(body: seq<Item>, name: string)
    requires forall j :: 0 <= j < |body| ==> !(body[j].Attribute? && body[j].name == name)
    ensures name !in AttributeNames(body)
    ensures AttributeOf(body, name) == None
  {
  }

  /** Reading an attribute of a concatenation. */
  lemma {:induction false} AttributeOfConcat(a: seq<Item>, b: seq<Item>, name: string)
    ensures AttributeOf(a + b, name) == if name in AttributeNames(a) then AttributeOf(a, name) else AttributeOf(b, name)
    decreases |a|
  {
    if |a| > 0 {
      assert (a + b)[0] == a[0] && (a + b)[1..] == a[1..] + b;
      AttributeOfConcat(a[1..], b, name);
      AttributeNamesConcat([a[0]], a[1..]);
      OneName(a[0]);
      assert [a[0]] + a[1..] == a;
    } else {
      assert a + b == b;
    }
  }

  /** Reading back an attribute just set gives its new expression; the other
      attributes read as before. */
  lemma {:induction false} SetAttributeGet(body: seq<Item>, name: string, e: Expr, other: string)
    ensures AttributeOf(SetAttribute(body, name, e), name) == Some(e)
    ensures other != name ==> AttributeOf(SetAttribute(body, name, e), other) == AttributeOf(body, other)
    decreases |body|
  {
    if |body| > 0 && !(body[0].Attribute? && body[0].name == name) {
      SetAttributeGet(body[1..], name, e, other);
    }
  }
}
