/**
 * The envelope reader as it runs: elements live in cells of growing slices, and two stacks of
 * pointers into those slices say where the next child or text goes. Growing a slice may move its
 * cells to a new backing array, which leaves pointers to the old cells behind.
 */
module EnvelopeReader {
  import opened Wrappers
  import opened Text
  import opened Xml
  import opened Envelope

  /** One element of a slice of elements; children lists the cells of its own slice. */
  class Cell {
    var name: QName
    var attrs: seq<Attr>
    var text: string
    var children: seq<Cell>

    constructor (name: QName, attrs: seq<Attr>)
      ensures this.name == name && this.attrs == attrs && text == "" && children == []
    {
      this.name, this.attrs, text, children := name, attrs, "", [];
    }

    constructor CopyOf(cell: Cell)
      ensures name == cell.name && attrs == cell.attrs && text == cell.text && children == cell.children
    {
      name, attrs, text, children := cell.name, cell.attrs, cell.text, cell.children;
    }
  }

  /** The trees of the cells whose elements are complete. */
  type Values = map<Cell, Elem>

  ghost predicate AllBuilt(cells: seq<Cell>, values: Values) {
    forall i :: 0 <= i < |cells| ==> cells[i] in values
  }

  ghost function ElemsOf(cells: seq<Cell>, values: Values): seq<Elem>
    requires AllBuilt(cells, values)
  {
    seq(|cells|, i requires 0 <= i < |cells| => values[cells[i]])
  }

  /** The complete children of an element: all of its slice, but for a last child that is still open. */
  ghost function CompleteChildren(cell: Cell, inner: bool): seq<Cell>
    reads cell
  {
    if inner && cell.children != [] then cell.children[..|cell.children| - 1] else cell.children
  }

  /** What a cell holds, if its complete children have values. */
  ghost function Contents(cell: Cell, inner: bool, values: Values): Option<Frame>
    reads cell
  {
    var complete := CompleteChildren(cell, inner);
    if AllBuilt(complete, values) then Some(Frame(cell.name, cell.attrs, cell.text, ElemsOf(complete, values)))
      else None
  }

  function FrameOf(e: Elem): Frame {
    Frame(e.name, e.attrs, e.text, e.children)
  }

  ghost predicate CellIs(cell: Cell, values: Values)
    requires cell in values
    reads cell
  {
    Contents(cell, false, values) == Some(FrameOf(values[cell]))
  }

  /** Every complete cell holds its tree, through complete cells only. */
  ghost predicate Built(values: Values)
    reads values.Keys
  {
    forall cell :: cell in values ==> CellIs(cell, values)
  }

  ghost predicate EntryIs(cell: Cell, inner: bool, frame: Frame, values: Values)
    reads cell
  {
    cell !in values && Contents(cell, inner, values) == Some(frame)
  }

  /**
   * The entries of a pointer stack under one that points to next: the last of them has next as the
   * last cell of its slice, and so on down the stack.
   */
  ghost predicate Below(stack: seq<Cell>, frames: seq<Frame>, next: Cell, values: Values)
    reads stack
  {
    && |stack| == |frames|
    && next !in stack
    && (stack != [] ==>
          var n := |stack| - 1;
          && stack[n].children != [] && stack[n].children[|stack[n].children| - 1] == next
          && EntryIs(stack[n], true, frames[n], values)
          && Below(stack[..n], frames[..n], stack[n], values))
  }

  /** A pointer stack holds the open elements, outermost first. */
  ghost predicate StackIs(stack: seq<Cell>, frames: seq<Frame>, values: Values)
    reads stack
  {
    && stack != [] && |stack| == |frames|
    && var n := |stack| - 1;
       EntryIs(stack[n], false, frames[n], values) && Below(stack[..n], frames[..n], stack[n], values)
  }

  /** The pointers in use: each entry above the bottom is the current last cell of the slice of the entry below. */
  ghost predicate Aliased(stack: seq<Cell>)
    reads stack
  {
    forall k :: 0 <= k < |stack| - 1 ==>
      stack[k].children != [] && stack[k].children[|stack[k].children| - 1] == stack[k + 1]
  }

  lemma {:induction false} BelowAliased(stack: seq<Cell>, frames: seq<Frame>, next: Cell, values: Values)
    requires Below(stack, frames, next, values)
    ensures Aliased(stack + [next])
  {
    if stack != [] {
      var n := |stack| - 1;
      BelowAliased(stack[..n], frames[..n], stack[n], values);
      assert stack[..n] + [stack[n]] == stack;
      assert forall k :: 0 <= k < n ==> stack[k] == (stack + [next])[k];
    }
  }

  /** No pointer of a stack is stale: following the slices from the bottom leads to every entry. */
  lemma StackAliased(stack: seq<Cell>, frames: seq<Frame>, values: Values)
    requires StackIs(stack, frames, values)
    ensures Aliased(stack)
  {
    var n := |stack| - 1;
    BelowAliased(stack[..n], frames[..n], stack[n], values);
    assert stack[..n] + [stack[n]] == stack;
  }

  /** The root cell, the flag and the pointer stack of Header or Body against what has been read of it. */
  ghost predicate PartIs(root: Cell, inPart: bool, stack: seq<Cell>, part: Part, values: Values)
    reads root, stack
  {
    && (inPart <==> stack != [])
    && match part
       case Absent => !inPart && root !in values && root.name.local == ""
       case Open(frames) => inPart && stack[0] == root && StackIs(stack, frames, values) && root.name.local != ""
       case Done(e) => !inPart && root in values && values[root] == e && root.name.local != ""
  }

  // ---------- the operations on a stack ----------

  /** A new backing array: copies of the elements, which share their own slices with the originals. */
  method CopyAll(cells: seq<Cell>, ghost values: Values) returns (moved: seq<Cell>, ghost values1: Values)
    requires Built(values) && AllBuilt(cells, values)
    ensures AllBuilt(moved, values1) && ElemsOf(moved, values1) == ElemsOf(cells, values)
    ensures Built(values1) && values.Keys <= values1.Keys && (forall c :: c in values ==> values1[c] == values[c])
    ensures fresh(values1.Keys - values.Keys)
  {
    moved, values1 := [], values;
    for i := 0 to |cells|
      invariant |moved| == i
      invariant forall j :: 0 <= j < i ==> moved[j] in values1 && values1[moved[j]] == values[cells[j]]
      invariant Built(values1) && values.Keys <= values1.Keys && (forall c :: c in values ==> values1[c] == values[c])
      invariant fresh(values1.Keys - values.Keys)
    {
      var cell := cells[i];
      assert CellIs(cell, values1);
      var copy := new Cell.CopyOf(cell);
      CopyIsBuilt(cell, copy, values1);
      values1 := values1[copy := values1[cell]];
      moved := moved + [copy];
    }
  }

  /** A copy of a complete cell is complete, and the others stay so. */
  lemma CopyIsBuilt(cell: Cell, copy: Cell, values: Values)
    requires Built(values) && cell in values && copy !in values
    requires copy.name == cell.name && copy.attrs == cell.attrs && copy.text == cell.text
             && copy.children == cell.children
    ensures Built(values[copy := values[cell]])
  {
    var values1 := values[copy := values[cell]];
    assert CellIs(cell, values);
    forall c | c in values1 ensures CellIs(c, values1) {
      assert c != copy ==> CellIs(c, values);
      assert ElemsOf(c.children, values1) == ElemsOf(c.children, values);
    }
  }

  /** Appending to a slice: in place, or in a new backing array when the old one is full. */
  method AppendChild(parent: Cell, name: QName, attrs: seq<Attr>, ghost values: Values)
    returns (child: Cell, ghost values1: Values)
    requires Built(values) && parent !in values && AllBuilt(parent.children, values)
    modifies parent`children
    ensures fresh(child) && child.name == name && child.attrs == attrs && child.text == "" && child.children == []
    ensures child !in values1 && child != parent
    ensures |parent.children| == |old(parent.children)| + 1 && parent.children[|old(parent.children)|] == child
    ensures AllBuilt(parent.children[..|old(parent.children)|], values1)
    ensures ElemsOf(parent.children[..|old(parent.children)|], values1) == old(ElemsOf(parent.children, values))
    ensures Built(values1) && values.Keys <= values1.Keys && (forall c :: c in values ==> values1[c] == values[c])
    ensures fresh(values1.Keys - values.Keys)
  {
    var kept := parent.children;
    values1 := values;
    if * {
      kept, values1 := CopyAll(parent.children, values);
    }
    child := new Cell(name, attrs);
    parent.children := kept + [child];
    assert parent.children[..|kept|] == kept;
  }

  lemma EntryKept(cell: Cell, inner: bool, frame: Frame, values: Values, values1: Values)
    requires EntryIs(cell, inner, frame, values) && cell !in values1
    requires forall c :: c in values ==> c in values1 && values1[c] == values[c]
    ensures EntryIs(cell, inner, frame, values1)
  {
    assert ElemsOf(CompleteChildren(cell, inner), values1) == ElemsOf(CompleteChildren(cell, inner), values);
  }

  lemma {:induction false} BelowKept(stack: seq<Cell>, frames: seq<Frame>, next: Cell, values: Values, values1: Values)
    requires Below(stack, frames, next, values)
    requires forall c :: c in stack ==> c !in values1
    requires forall c :: c in values ==> c in values1 && values1[c] == values[c]
    ensures Below(stack, frames, next, values1)
  {
    if stack != [] {
      var n := |stack| - 1;
      EntryKept(stack[n], true, frames[n], values, values1);
      BelowKept(stack[..n], frames[..n], stack[n], values, values1);
    }
  }

  lemma {:induction false} BelowIncomplete(stack: seq<Cell>, frames: seq<Frame>, next: Cell, values: Values)
    requires Below(stack, frames, next, values)
    ensures forall c :: c in stack ==> c !in values
  {
    if stack != [] {
      var n := |stack| - 1;
      BelowIncomplete(stack[..n], frames[..n], stack[n], values);
      assert stack == stack[..n] + [stack[n]];
    }
  }

  /** A child of the innermost open element, appended and pointed to. */
  method PushChild(stack: seq<Cell>, name: QName, attrs: seq<Attr>, ghost frames: seq<Frame>, ghost values: Values)
    returns (stack1: seq<Cell>, ghost values1: Values)
    requires Built(values) && StackIs(stack, frames, values)
    modifies stack[|stack| - 1]
    ensures stack <= stack1 && |stack1| == |stack| + 1 && fresh(stack1[|stack|])
    ensures Built(values1) && fresh(values1.Keys - values.Keys)
    ensures StackIs(stack1, frames + [NewFrame(name, attrs)], values1)
    ensures stack[|stack| - 1].name == old(stack[|stack| - 1].name)
  {
    var n := |stack| - 1;
    var parent, rest := stack[n], stack[..n];
    ghost var frame, frames0 := frames[n], frames[..n];
    BelowIncomplete(rest, frames0, parent, values);
    assert Below(rest, frames0, parent, values);
    var child;
    child, values1 := AppendChild(parent, name, attrs, values);
    assert Below(rest, frames0, parent, values);
    stack1 := stack + [child];
    BelowKept(rest, frames0, parent, values, values1);
    assert EntryIs(parent, true, frame, values1);
    assert stack1[..n + 1] == stack && (frames + [NewFrame(name, attrs)])[..n + 1] == frames;
    assert Below(stack, frames, child, values1);
    assert ElemsOf(child.children, values1) == [];
    assert EntryIs(child, false, NewFrame(name, attrs), values1);
  }

  /** Text joins that of the innermost open element. */
  method AppendText(stack: seq<Cell>, text: string, ghost frames: seq<Frame>, ghost values: Values)
    requires Built(values) && StackIs(stack, frames, values)
    modifies stack[|stack| - 1]
    ensures Built(values)
    ensures var top := frames[|stack| - 1]; StackIs(stack, frames[|stack| - 1 := top.(text := top.text + text)], values)
    ensures stack[|stack| - 1].name == old(stack[|stack| - 1].name)
  {
    var n := |stack| - 1;
    var current := stack[n];
    ghost var frames1 := frames[n := frames[n].(text := frames[n].text + text)];
    assert Below(stack[..n], frames[..n], current, values);
    assert frames1[..n] == frames[..n];
    current.text := current.text + text;
    assert EntryIs(current, false, frames1[n], values);
  }

  /** The innermost open element is complete: its cell, already in place, gets a value. */
  lemma PopChild(stack: seq<Cell>, frames: seq<Frame>, values: Values)
    requires Built(values) && StackIs(stack, frames, values)
    ensures var n := |stack| - 1;
            var values1 := values[stack[n] := Close(frames[n])];
            && Built(values1)
            && (n > 0 ==> StackIs(stack[..n], frames[..n][n - 1 := WithChild(frames[n - 1], Close(frames[n]))],
               values1))
  {
    var n := |stack| - 1;
    var top := stack[n];
    var values1 := values[top := Close(frames[n])];
    forall c | c in values1 ensures CellIs(c, values1) {
      assert c != top ==> CellIs(c, values);
      assert ElemsOf(c.children, values1) == ElemsOf(c.children, values);
    }
    if n > 0 {
      var rest, frames0, parent := stack[..n], frames[..n], stack[n - 1];
      var frames1 := frames0[n - 1 := WithChild(frames[n - 1], Close(frames[n]))];
      BelowIncomplete(rest, frames0, top, values);
      EntryKept(parent, true, frames[n - 1], values, values1);
      assert parent.children == CompleteChildren(parent, true) + [top];
      assert ElemsOf(parent.children, values1) == frames[n - 1].children + [Close(frames[n])];
      assert EntryIs(parent, false, frames1[n - 1], values1);
      BelowKept(rest[..n - 1], frames0[..n - 1], parent, values, values1);
      assert frames1[..n - 1] == frames0[..n - 1];
    }
  }

  // ---------- the reader ----------

  /** Namespace declarations of the envelope, later ones overriding earlier ones. */
  method CollectInto(attrs: seq<Attr>) returns (namespaces: map<string, string>)
    ensures namespaces == CollectNamespaces(attrs)
  {
    namespaces := map[];
    for i := 0 to |attrs|
      invariant namespaces == CollectNamespaces(attrs[..i])
    {
      assert attrs[..i + 1][..i] == attrs[..i];
      if attrs[i].name.space == "xmlns" {
        namespaces := namespaces[attrs[i].name.local := attrs[i].value];
        continue;
      }
      if attrs[i].name.space == "" && attrs[i].name.local == "xmlns" {
        namespaces := namespaces["" := attrs[i].value];
      }
    }
    assert attrs[..|attrs|] == attrs;
  }

  // ---------- one part ----------

  /** The loop's variables for one part: inHeader, headerStack and parsed.Header, or those of the body. */
  datatype Cursor = Cursor(root: Cell, inPart: bool, stack: seq<Cell>)

  /** For the proof: what has been read of the part, and every cell it has ever used. */
  datatype Shadow = Shadow(part: Part, values: Values, cells: set<Cell>)

  /** One part in order, at any time and for any stream: flag, pointers and cells agree with what has been read. */
  ghost predicate PartOk(c: Cursor, g: Shadow)
    reads g.cells
  {
    && c.root in g.cells && (forall cell :: cell in c.stack ==> cell in g.cells) && g.values.Keys <= g.cells
    && Built(g.values)
    && PartIs(c.root, c.inPart, c.stack, g.part, g.values)
  }

  /** Whatever the stream: the flag says whether the stack is in use, its bottom is the part's root, and no entry is
      stale. */
  lemma PointersAreCurrent(c: Cursor, g: Shadow)
    requires PartOk(c, g)
    ensures (c.inPart <==> c.stack != []) && Aliased(c.stack)
    ensures c.stack != [] ==> c.stack[0] == c.root
  {
    if c.inPart {
      StackAliased(c.stack, g.part.frames, g.values);
    }
  }

  method BeginPart(c: Cursor, name: QName, attrs: seq<Attr>, ghost g: Shadow) returns (c1: Cursor, ghost g1: Shadow)
    requires PartOk(c, g) && g.part.Absent? && name.local != ""
    modifies c.root
    ensures PartOk(c1, g1) && g1.cells == g.cells && g1.part == Open([NewFrame(name, attrs)])
  {
    assert forall cell :: cell in g.values ==> CellIs(cell, g.values);
    var root := c.root;
    root.name, root.attrs, root.text, root.children := name, attrs, "", [];
    c1 := Cursor(root, true, [root]);
    g1 := g.(part := Open([NewFrame(name, attrs)]));
    assert ElemsOf(root.children, g.values) == [];
    assert EntryIs(root, false, NewFrame(name, attrs), g.values);
  }

  method PushPart(c: Cursor, name: QName, attrs: seq<Attr>, ghost g: Shadow) returns (c1: Cursor, ghost g1: Shadow)
    requires PartOk(c, g) && g.part.Open?
    modifies g.cells
    ensures PartOk(c1, g1) && g.cells <= g1.cells && fresh(g1.cells - g.cells) && g1.part == Push(g.part, name, attrs)
  {
    var stack1;
    ghost var values1;
    stack1, values1 := PushChild(c.stack, name, attrs, g.part.frames, g.values);
    c1 := c.(stack := stack1);
    assert stack1[0] == c.root && stack1[..|c.stack|] == c.stack;
    g1 := Shadow(Push(g.part, name, attrs), values1, g.cells + {stack1[|c.stack|]} + values1.Keys);
  }

  method TextPart(c: Cursor, chars: string, ghost g: Shadow)
    requires PartOk(c, g)
    modifies g.cells
    ensures PartOk(c, g.(part := AddText(g.part, chars)))
  {
    if c.inPart && |c.stack| > 0 {
      var text := TrimSpace(chars);
      if text != "" {
        AppendText(c.stack, text, g.part.frames, g.values);
      } else {
        var top := g.part.frames[|c.stack| - 1];
        assert top.text + text == top.text;
        assert g.part.frames[|c.stack| - 1 := top] == g.part.frames;
      }
    }
  }

  method EndPart(c: Cursor, ghost g: Shadow) returns (c1: Cursor, ghost g1: Shadow)
    requires PartOk(c, g)
    ensures PartOk(c1, g1) && g1.cells == g.cells && g1.part == Pop(g.part)
  {
    c1, g1 := c, g;
    if c.inPart {
      var n := |c.stack| - 1;
      PopChild(c.stack, g.part.frames, g.values);
      g1 := g.(part := Pop(g.part), values := g.values[c.stack[n] := Close(g.part.frames[n])]);
      c1 := c.(stack := c.stack[..n]);
      if |c1.stack| == 0 {
        c1 := c1.(inPart := false);
      }
    }
  }

  /** The element of the part, as the caller finds it through parsed. */
  method PartResult(c: Cursor, ghost g: Shadow) returns (r: Option<Elem>)
    requires PartOk(c, g)
    ensures r == PartElem(g.part)
  {
    if c.root.name.local == "" {
      return None;
    }
    ghost var closed := g.values;
    if g.part.Open? {
      closed := CloseAll(c.stack, g.part.frames, g.values);
    }
    var e := Load(c.root, closed);
    return Some(e);
  }

  lemma {:induction false} CollapseOfPopped(frames: seq<Frame>)
    requires |frames| > 1
    ensures var n := |frames| - 1;
            Collapse(frames[..n][n - 1 := WithChild(frames[n - 1], Close(frames[n]))]) == Collapse(frames)
    decreases |frames|
  {
    var n := |frames| - 1;
    var popped := frames[..n][n - 1 := WithChild(frames[n - 1], Close(frames[n]))];
    if n > 1 {
      CollapseOfPopped(frames[1..]);
      assert popped[1..] == frames[1..][..n - 1][n - 2 := WithChild(frames[n - 1], Close(frames[n]))];
    }
  }

  /** When the stream stops early the open elements count as complete. */
  lemma {:induction false} CloseAll(stack: seq<Cell>, frames: seq<Frame>, values: Values) returns (closed: Values)
    requires Built(values) && StackIs(stack, frames, values)
    ensures Built(closed) && stack[0] in closed && closed[stack[0]] == Collapse(frames)
    decreases |stack|
  {
    var n := |stack| - 1;
    PopChild(stack, frames, values);
    closed := values[stack[n] := Close(frames[n])];
    if n > 0 {
      CollapseOfPopped(frames);
      closed := CloseAll(stack[..n], frames[..n][n - 1 := WithChild(frames[n - 1], Close(frames[n]))], closed);
    }
  }

  /** Reading a complete cell as a value. */
  method Load(cell: Cell, ghost values: Values) returns (e: Elem)
    requires Built(values) && cell in values
    ensures e == values[cell]
    decreases values[cell]
  {
    assert CellIs(cell, values);
    var children := [];
    for i := 0 to |cell.children|
      invariant children == ElemsOf(cell.children, values)[..i]
    {
      assert ElemsOf(cell.children, values)[i] in values[cell].children;
      var child := Load(cell.children[i], values);
      children := children + [child];
    }
    e := Elem(cell.name, cell.attrs, cell.text, children);
  }

  /** The loop's variables against what has been read. */
  ghost predicate Agrees(name: QName, attrs: seq<Attr>, namespaces: map<string, string>, header: Part, body: Part,
                         reading: Reading) {
    match reading
    case Failed(_) => false
    case Before => name.local == "" && header.Absent? && body.Absent?
    case Within(_, _, _, _, _) => name.local != "" && reading == Within(name, attrs, namespaces, header, body)
  }

  lemma TextAgrees(name: QName, attrs: seq<Attr>, namespaces: map<string, string>, header: Part, body: Part,
                   reading: Reading, text: string)
    requires Agrees(name, attrs, namespaces, header, body, reading)
    ensures Agrees(name, attrs, namespaces, AddText(header, text), AddText(body, text), Feed(reading, CharData(text)))
  {
  }

  lemma EndAgrees(name: QName, attrs: seq<Attr>, namespaces: map<string, string>, header: Part, body: Part,
                  reading: Reading, tag: QName)
    requires Agrees(name, attrs, namespaces, header, body, reading)
    ensures Agrees(name, attrs, namespaces, Pop(header), Pop(body), Feed(reading, End(tag)))
  {
  }

  /** Both parts in order, sharing no cell. */
  ghost predicate BothOk(header: Cursor, body: Cursor, h: Shadow, b: Shadow)
    reads h.cells, b.cells
  {
    PartOk(header, h) && PartOk(body, b) && h.cells !! b.cells
  }

  /** The case of a start tag inside the envelope. */
  method StartCase(tag: QName, attrs: seq<Attr>, header: Cursor, body: Cursor, ghost h: Shadow, ghost b: Shadow,
                   ghost reading: Reading)
    returns (error: Option<EnvelopeError>, header1: Cursor, body1: Cursor, ghost h1: Shadow, ghost b1: Shadow)
    requires BothOk(header, body, h, b) && reading.Within? && reading.header == h.part && reading.body == b.part
    modifies h.cells, b.cells
    ensures error.Some? ==> Feed(reading, Start(tag, attrs)) == Failed(error.value)
    ensures error.None? ==>
              && BothOk(header1, body1, h1, b1) && fresh(h1.cells - h.cells) && fresh(b1.cells - b.cells)
              && Feed(reading, Start(tag, attrs)) == reading.(header := h1.part, body := b1.part)
  {
    error, header1, body1, h1, b1 := None, header, body, h, b;
    if tag.space == Namespaces.SOAPENV_NS_URL && tag.local == "Header" {
      if header.root.name.local != "" {
        error := Some(MultipleHeaders);
        return;
      }
      header1, h1 := BeginPart(header, tag, attrs, h);
      return;
    }
    if header.inPart {
      header1, h1 := PushPart(header, tag, attrs, h);
      return;
    }
    if tag.space == Namespaces.SOAPENV_NS_URL && tag.local == "Body" {
      if body.root.name.local != "" {
        error := Some(MultipleBodies);
        return;
      }
      body1, b1 := BeginPart(body, tag, attrs, b);
      return;
    }
    if body.inPart {
      body1, b1 := PushPart(body, tag, attrs, b);
    }
  }

  /** The case of character data, which goes to whichever part is open, or to both. */
  method TextCase(text: string, header: Cursor, body: Cursor, ghost h: Shadow, ghost b: Shadow)
    requires BothOk(header, body, h, b)
    modifies h.cells, b.cells
    ensures BothOk(header, body, h.(part := AddText(h.part, text)), b.(part := AddText(b.part, text)))
  {
    TextPart(header, text, h);
    TextPart(body, text, b);
  }

  /** The case of an end tag, likewise. */
  method EndCase(header: Cursor, body: Cursor, ghost h: Shadow, ghost b: Shadow)
    returns (header1: Cursor, body1: Cursor, ghost h1: Shadow, ghost b1: Shadow)
    requires BothOk(header, body, h, b)
    ensures BothOk(header1, body1, h1, b1) && h1.cells == h.cells && b1.cells == b.cells
    ensures h1.part == Pop(h.part) && b1.part == Pop(b.part)
  {
    header1, h1 := EndPart(header, h);
    body1, b1 := EndPart(body, b);
  }

  /** One turn of the loop. */
  method Consume(token: Token, name: QName, attrs: seq<Attr>, namespaces: map<string, string>, header: Cursor,
                 body: Cursor, ghost h: Shadow, ghost b: Shadow, ghost reading: Reading)
    returns (error: Option<EnvelopeError>, name1: QName, attrs1: seq<Attr>, namespaces1: map<string, string>,
             header1: Cursor, body1: Cursor, ghost h1: Shadow, ghost b1: Shadow)
    requires BothOk(header, body, h, b) && Agrees(name, attrs, namespaces, h.part, b.part, reading)
    modifies h.cells, b.cells
    ensures error.Some? ==> Feed(reading, token) == Failed(error.value)
    ensures error.None? ==>
              && BothOk(header1, body1, h1, b1) && fresh(h1.cells - h.cells) && fresh(b1.cells - b.cells)
              && Agrees(name1, attrs1, namespaces1, h1.part, b1.part, Feed(reading, token))
  {
    error, name1, attrs1, namespaces1, header1, body1, h1, b1 := None, name, attrs, namespaces, header, body, h, b;
    match token {
      case Start(tag, tagAttrs) =>
        if name.local == "" {
          if tag.local != "Envelope" || tag.space != Namespaces.SOAPENV_NS_URL {
            error := Some(ExpectedEnvelope);
            return;
          }
          name1, attrs1 := tag, tagAttrs;
          namespaces1 := CollectInto(tagAttrs);
          return;
        }
        error, header1, body1, h1, b1 := StartCase(tag, tagAttrs, header, body, h, b, reading);
      case CharData(text) =>
        TextCase(text, header, body, h, b);
        TextAgrees(name, attrs, namespaces, h.part, b.part, reading, text);
        h1, b1 := h.(part := AddText(h.part, text)), b.(part := AddText(b.part, text));
      case End(tag) =>
        EndAgrees(name, attrs, namespaces, h.part, b.part, reading, tag);
        header1, body1, h1, b1 := EndCase(header, body, h, b);
      case OtherToken =>
    }
  }

  /** The checks once the tokens are used up. */
  method Conclude(name: QName, attrs: seq<Attr>, namespaces: map<string, string>, header: Cursor, body: Cursor,
                  ghost h: Shadow, ghost b: Shadow, ghost reading: Reading)
    returns (r: Result<ParsedEnvelope, EnvelopeError>)
    requires BothOk(header, body, h, b) && Agrees(name, attrs, namespaces, h.part, b.part, reading)
    ensures r == Finish(reading)
  {
    if name.local == "" {
      return Err(EnvelopeNotFound);
    }
    var headerElem := PartResult(header, h);
    if headerElem.None? {
      return Err(HeaderNotFound);
    }
    var bodyElem := PartResult(body, b);
    if bodyElem.None? {
      return Err(BodyNotFound);
    }
    return Ok(ParsedEnvelope(name, attrs, headerElem.value, bodyElem.value, namespaces));
  }

  /** ParseSOAPEnvelope: the loop over the decoder's tokens and the checks after it. */
  method ParseSOAPEnvelope(stream: seq<Token>, complete: bool) returns (r: Result<ParsedEnvelope, EnvelopeError>)
    ensures r == Parse(stream, complete)
  {
    var name, attrs: seq<Attr>, namespaces: map<string, string> := QName("", ""), [], map[];
    var headerRoot := new Cell(QName("", ""), []);
    var bodyRoot := new Cell(QName("", ""), []);
    var header, body := Cursor(headerRoot, false, []), Cursor(bodyRoot, false, []);
    ghost var h, b, reading := Shadow(Absent, map[], {headerRoot}), Shadow(Absent, map[], {bodyRoot}), Before;
    for i := 0 to |stream|
      invariant reading == Run(Before, stream[..i]) && Agrees(name, attrs, namespaces, h.part, b.part, reading)
      invariant BothOk(header, body, h, b) && fresh(h.cells) && fresh(b.cells)
      invariant header.inPart <==> header.stack != []
      invariant body.inPart <==> body.stack != []
      invariant Aliased(header.stack) && Aliased(body.stack)
    {
      RunPrefix(stream, i);
      var error;
      error, name, attrs, namespaces, header, body, h, b :=
        Consume(stream[i], name, attrs, namespaces, header, body, h, b, reading);
      reading := Feed(reading, stream[i]);
      if error.Some? {
        RunStops(stream, i, error.value);
        return Err(error.value);
      }
      PointersAreCurrent(header, h);
      PointersAreCurrent(body, b);
    }
    assert stream[..|stream|] == stream;
    if !complete {
      return Err(MalformedXml);
    }
    r := Conclude(name, attrs, namespaces, header, body, h, b, reading);
  }

  lemma RunPrefix(stream: seq<Token>, i: nat)
    requires i < |stream|
    ensures Run(Before, stream[..i + 1]) == Feed(Run(Before, stream[..i]), stream[i])
  {
    assert stream[..i + 1] == stream[..i] + [stream[i]];
    RunConcat(Before, stream[..i], [stream[i]]);
    assert [stream[i]][1..] == [];
  }

  lemma RunStops(stream: seq<Token>, i: nat, error: EnvelopeError)
    requires i < |stream| && Run(Before, stream[..i + 1]) == Failed(error)
    ensures Run(Before, stream) == Failed(error)
  {
    assert stream == stream[..i + 1] + stream[i + 1..];
    RunConcat(Before, stream[..i + 1], stream[i + 1..]);
    RunFailed(Failed(error), stream[i + 1..]);
  }
}
