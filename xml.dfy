/**
 * org.nyet.util.XmlString as the serialisers use it: a growing list of
 * lines, each an element at the indentation current when it was appended.
 * How a line is finally turned into text is not part of this model.
 */
module Xml {
  /** What one append call adds. */
  datatype Item =
    | Tag(text: string)                                  // append(String): a raw tag body
    | Elem(name: string, content: string)                // append(String, Object): <name>content</name>
    | Attrs(name: string, attrs: seq<(string, string)>)  // append(String, LinkedHashMap): <name k="v" ... />

  datatype Line = Line(depth: int, item: Item)

  class XmlString {
    var lines: seq<Line>
    var depth: int

    constructor (depth: int)
      ensures lines == [] && this.depth == depth
    {
      lines := [];
      this.depth := depth;
    }

    method Append(item: Item)
      modifies this
      ensures lines == old(lines) + [Line(old(depth), item)] && depth == old(depth)
    {
      lines := lines + [Line(depth, item)];
    }

    /** An append done only when c holds. */
    method AppendIf(c: bool, item: Item)
      modifies this
      ensures lines == old(lines) + (if c then [Line(old(depth), item)] else []) && depth == old(depth)
    {
      if c {
        lines := lines + [Line(depth, item)];
      }
    }

    method Indent()
      modifies this
      ensures lines == old(lines) && depth == old(depth) + 1
    {
      depth := depth + 1;
    }

    method Unindent()
      modifies this
      ensures lines == old(lines) && depth == old(depth) - 1
    {
      depth := depth - 1;
    }

    /** Closing an element: unindent, then the closing tag at the outer depth. */
    method Close(item: Item)
      modifies this
      ensures lines == old(lines) + [Line(old(depth) - 1, item)] && depth == old(depth) - 1
    {
      Unindent();
      Append(item);
    }
  }

  /** Appending after a prefix: (base + acc) + [l] is base + (acc + [l]). */
  lemma AppendOne(base: seq<Line>, acc: seq<Line>, l: Line)
    ensures base + acc + [l] == base + (acc + [l])
  {
  }

  lemma AppendMany(base: seq<Line>, acc: seq<Line>, more: seq<Line>)
    ensures base + acc + more == base + (acc + more)
  {
  }

  lemma DropPrefix(base: seq<Line>, more: seq<Line>)
    ensures (base + more)[|base|..] == more
  {
  }
}
