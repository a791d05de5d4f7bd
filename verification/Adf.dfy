/** The Atlassian Document Format subset: nodes, marks and their attributes. */
module Adf {
  import opened Text

  datatype Option<+T> = None | Some(value: T)

  datatype Kind =
    | Doc | Paragraph | Heading | BulletList | OrderedList | ListItem
    | CodeBlock | Blockquote | Panel | Status | HardBreak | Rule
    | Table | TableRow | TableHeader | TableCell
    | Mention | TaskList | TaskItem | Date | Emoji | Media | Text
    | Unknown(name: string)

  datatype MarkKind = Strong | Em | Code | Link | Underline | Strike | OtherMark(name: string)

  /** A decoded JSON attribute: a string, a number, or anything else. */
  datatype Value = Str(s: string) | Num(n: real) | OtherValue

  type Attrs = map<string, Value>

  datatype Mark = Mark(kind: MarkKind, attrs: Attrs)

  datatype Node = Node(kind: Kind, attrs: Attrs, content: seq<Node>, text: string, marks: seq<Mark>)

  function Leaf(kind: Kind, attrs: Attrs): Node {
    Node(kind, attrs, [], "", [])
  }

  function Block(kind: Kind, attrs: Attrs, content: seq<Node>): Node {
    Node(kind, attrs, content, "", [])
  }

  function TextNode(text: string, marks: seq<Mark>): Node {
    Node(Text, map[], [], text, marks)
  }

  /** A string attribute, empty when it is absent or not a string. */
  function StrAttr(attrs: Attrs, key: string): string {
    if key in attrs && attrs[key].Str? then attrs[key].s else ""
  }

  /** A heading's level: 1 unless the attribute is a number from 1 to 6. */
  function Level(attrs: Attrs): (l: nat)
    ensures 1 <= l <= 6
  {
    if "level" in attrs && attrs["level"].Num? && 1.0 <= attrs["level"].n <= 6.0
    then attrs["level"].n.Floor else 1
  }

  predicate PanelKind(kind: string) {
    kind in {"info", "note", "warning", "tip"}
  }

  /** The Confluence macro that draws a panel. */
  function PanelMacro(attrs: Attrs): (m: string)
    ensures PanelKind(m) || m == "panel"
  {
    var kind := ToLower(TrimSpace(StrAttr(attrs, "panelType")));
    if PanelKind(kind) then kind
    else if kind == "error" then "warning"
    else if kind == "success" then "tip"
    else "panel"
  }

  predicate StatusColour(colour: string) {
    colour in {"grey", "red", "yellow", "green", "blue", "purple"}
  }

  function PanelStatusColour(attrs: Attrs): (c: string)
    ensures StatusColour(c)
  {
    var colour := ToLower(TrimSpace(StrAttr(attrs, "color")));
    if StatusColour(colour) then colour else "grey"
  }

  // ---- links ----

  predicate IsLetter(c: char) { 'a' <= c <= 'z' || 'A' <= c <= 'Z' }

  /** The scheme a URL starts with from position i, or None when it starts with a colon. */
  function Scheme(raw: string, i: nat): Option<string>
    requires i <= |raw|
    decreases |raw| - i
  {
    if i == |raw| then Some("")
    else if IsLetter(raw[i]) then Scheme(raw, i + 1)
    else if IsDigit(raw[i]) || raw[i] in "+-." then
      if i == 0 then Some("") else Scheme(raw, i + 1)
    else if raw[i] == ':' then
      if i == 0 then None else Some(raw[..i])
    else Some("")
  }

  predicate HasControl(raw: string) {
    exists c :: c in raw && (c < ' ' || c == '\U{7F}')
  }

  /** The address itself when it is trimmed and of an allowed scheme, else nothing. */
  function SafeHref(raw: string): (r: string)
    ensures r == raw || r == ""
  {
    if TrimSpace(raw) != raw || raw == "" || HasControl(raw) then ""
    else
      match Scheme(raw, 0)
      case None => ""
      case Some(scheme) => if ToLower(scheme) in {"", "http", "https", "mailto"} then raw else ""
  }

  predicate HasMark(marks: seq<Mark>, kind: MarkKind) {
    exists i :: 0 <= i < |marks| && marks[i].kind == kind
  }

  /** The link a text's marks give it: the last link mark with a string address decides. */
  function LinkOf(marks: seq<Mark>): (link: string)
    ensures SafeHref(link) == link
  {
    if marks == [] then ""
    else
      var m := marks[|marks| - 1];
      if m.kind.Link? && "href" in m.attrs && m.attrs["href"].Str?
      then SafeHref(m.attrs["href"].s)
      else LinkOf(marks[..|marks| - 1])
  }

  /** All the text of a node, one line for each piece. */
  function CollectText(n: Node): string
    decreases n, 0
  {
    (if n.text != "" then n.text + "\n" else "") + CollectTexts(n.content)
  }

  function CollectTexts(ns: seq<Node>): string
    decreases ns, 1
  {
    if ns == [] then "" else CollectText(ns[0]) + CollectTexts(ns[1..])
  }

  function TrimNewlines(s: string): string {
    if s != "" && s[|s| - 1] == '\n' then TrimNewlines(s[..|s| - 1]) else s
  }

  /** The plain text of a document, without trailing line ends. */
  function PlainText(doc: Node): string {
    TrimNewlines(CollectText(doc))
  }

  /** What a column holds that should be a document: one, or something that cannot be read as one. */
  datatype DocColumn = Document(doc: Node) | Unreadable(raw: string)

  function StoredText(stored: DocColumn): string {
    if stored.Document? then PlainText(stored.doc) else ""
  }

  /** The document a form's plain text is kept as. */
  function PlainDocument(text: string): Node {
    Block(Doc, map[], [Block(Paragraph, map[], if text == "" then [] else [TextNode(text, [])])])
  }

  /** It shows that text, but for line ends at its end. */
  lemma PlainDocumentText(text: string)
    ensures PlainText(PlainDocument(text)) == TrimNewlines(text)
  {
    var content := if text == "" then [] else [TextNode(text, [])];
    var paragraph := Block(Paragraph, map[], content);
    if text != "" {
      assert content[1..] == [] && CollectText(content[0]) == text + "\n";
      assert (text + "\n")[..|text|] == text;
    }
    assert CollectText(paragraph) == CollectTexts(content);
    assert [paragraph][1..] == [] && CollectTexts([]) == "";
    assert CollectTexts([paragraph]) == CollectText(paragraph) + "";
  }
}
