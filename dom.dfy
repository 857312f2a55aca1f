/**
 * The parsed document: a read-only tree of elements and text strings, as an
 * HTML parser delivers it. Searching it follows the document order of the
 * parser's tree, that is, a preorder walk of the nodes below the one searched.
 */
module Dom {

  import opened Seqs
  import opened Text

  datatype Node =
    | StringNode(content: string)
    | Element(tag: string, attrs: map<string, string>, children: seq<Node>)

  /** Every node strictly below `n`, in document order (the `descendants` of a tag). */
  function Descendants(n: Node): seq<Node>
    decreases n, 1
  {
    match n
    case StringNode(_) => []
    case Element(_, _, cs) => Forest(cs)
  }

  function Forest(cs: seq<Node>): seq<Node>
    decreases cs, 0
  {
    if cs == [] then [] else [cs[0]] + Descendants(cs[0]) + Forest(cs[1..])
  }

  /** `n.find_all(...)` for a matching rule `p`: the matching nodes below `n`, in order. */
  function FindAll(n: Node, p: Node -> bool): seq<Node>
  {
    Filter(Descendants(n), p)
  }

  /** `n.find(...)`: the head of `find_all`. */
  function Find(n: Node, p: Node -> bool): Option<Node>
  {
    First(Descendants(n), p)
  }

  /** The rule `find_all(tag)`. */
  function TagIs(tag: string): Node -> bool
  {
    (x: Node) => x.Element? && x.tag == tag
  }

  predicate IsString(x: Node)
  {
    x.StringNode?
  }

  predicate HasAttr(x: Node, name: string)
  {
    x.Element? && name in x.attrs
  }

  /** `x.get(name)` where a missing attribute reads as the falsy empty string. */
  function Attr(x: Node, name: string): string
  {
    if HasAttr(x, name) then x.attrs[name] else ""
  }

  function ContentOf(x: Node): string
  {
    if x.StringNode? then x.content else ""
  }

  /** The text strings below `n`, in order. */
  function Strings(n: Node): seq<string>
  {
    Map(Filter(Descendants(n), IsString), ContentOf)
  }

  predicate NonEmpty(s: string)
  {
    s != []
  }

  /** `n.stripped_strings`: every text string below `n`, stripped, empty ones left out. */
  function StrippedStrings(n: Node): seq<string>
  {
    Filter(Map(Strings(n), Strip), NonEmpty)
  }

  /** `n.get_text(sep, strip=True)`. */
  function GetText(n: Node, sep: string): string
  {
    Join(StrippedStrings(n), sep)
  }

  /** `n.get_text(strip=True)`: the stripped strings run together. */
  function PlainText(n: Node): string
  {
    GetText(n, "")
  }

  /** `n.get_text(" ", strip=True)`. */
  function SpacedText(n: Node): string
  {
    GetText(n, " ")
  }

  /**
   * `n.string`: the text of a node whose only child is a string, or, when its
   * only child is an element, that element's `.string`; otherwise None.
   */
  function SingleString(n: Node): Option<string>
  {
    match n
    case StringNode(s) => Some(s)
    case Element(_, _, cs) =>
      if |cs| == 1 then SingleString(cs[0]) else None
  }
}
