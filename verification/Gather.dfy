/**
 * Inline content that stands among blocks, as it comes back: each run of it, trimmed, is a paragraph
 * of its own, in its place between the blocks.
 */
module Gather {
  import opened Text
  import opened Escape
  import opened Adf
  import opened Calendar
  import opened Storage
  import opened HtmlReader
  import opened Settle
  import opened RoundTripLeaves

  // ---- blocks with inline content among them ----

  predicate LooseBlock(n: Node)
    decreases n, 0
  {
    match n.kind
    case Paragraph => AllInline(n.content)
    case Heading => AllInline(n.content)
    case BulletList => forall c :: c in n.content ==> c.kind == ListItem && LooseItem(c)
    case OrderedList => forall c :: c in n.content ==> c.kind == ListItem && LooseItem(c)
    case Blockquote => forall c :: c in n.content ==> Mixed(c)
    case Panel => forall c :: c in n.content ==> Mixed(c)
    case CodeBlock => true
    case TaskList => forall c :: c in n.content ==> c.kind == TaskItem && AllInline(c.content)
    case Rule => true
    case _ => false
  }

  predicate LooseItem(item: Node)
    decreases item, 1
  {
    forall c :: c in item.content ==> Mixed(c)
  }

  /** What stands among blocks: inline content, or one of them. */
  predicate Mixed(n: Node)
    decreases n, 1
  {
    InlineKind(n.kind) || LooseBlock(n)
  }

  predicate AllMixed(ns: seq<Node>) {
    forall c :: c in ns ==> Mixed(c)
  }

  // ---- a run of inline content without the space around it ----

  /** Without the plain characters that show nothing at its beginning. */
  function LeadTrimmed(run: seq<Node>): (r: seq<Node>)
    ensures |r| <= |run|
  {
    if run == [] || PlainRun(run[0]).None? then run
    else if Blank(PlainRun(run[0]).value) then LeadTrimmed(run[1..])
    else [TextNode(TrimLeft(PlainRun(run[0]).value), [])] + run[1..]
  }

  /** Without those at its end. */
  function TailTrimmed(run: seq<Node>): (r: seq<Node>)
    ensures |r| <= |run|
  {
    var n := |run| - 1;
    if run == [] || PlainRun(run[n]).None? then run
    else if Blank(PlainRun(run[n]).value) then TailTrimmed(run[..n])
    else run[..n] + [TextNode(TrimRight(PlainRun(run[n]).value), [])]
  }

  function Trimmed(run: seq<Node>): seq<Node> {
    TailTrimmed(LeadTrimmed(run))
  }

  /** A paragraph of the run, if it shows anything. */
  function Paragraphs(run: seq<Node>): (r: seq<Node>)
    ensures |r| <= 1
  {
    if Trimmed(run) == [] then [] else [Block(Paragraph, map[], Trimmed(run))]
  }

  // ---- every run gathered in a paragraph ----

  function Gathered(n: Node): (r: Node)
    ensures r.kind == n.kind && r.attrs == n.attrs && r.text == n.text && r.marks == n.marks
    decreases n, 0
  {
    match n.kind
    case BulletList => n.(content := GatheredItems(n.content))
    case OrderedList => n.(content := GatheredItems(n.content))
    case ListItem => n.(content := GatherAll([], n.content))
    case Blockquote => n.(content := GatherAll([], n.content))
    case Panel => n.(content := GatherAll([], n.content))
    case _ => n
  }

  function GatheredItems(items: seq<Node>): (r: seq<Node>)
    ensures |r| == |items|
    decreases items, 1
  {
    if items == [] then [] else [Gathered(items[0])] + GatheredItems(items[1..])
  }

  /** The blocks in order, and between them what the inline content there shows. */
  function GatherAll(run: seq<Node>, ns: seq<Node>): seq<Node>
    decreases ns, 1
  {
    if ns == [] then Paragraphs(run)
    else if InlineKind(ns[0].kind) then GatherAll(run + [ns[0]], ns[1..])
    else Paragraphs(run) + [Gathered(ns[0])] + GatherAll([], ns[1..])
  }

  // ---- blocks alone are as they were ----

  lemma {:induction false} BlocksAreLoose(n: Node)
    requires BlockShape(n)
    ensures LooseBlock(n) && Gathered(n) == n
    decreases n, 0
  {
    match n.kind
    case BulletList => ItemsAreLoose(n.content);
    case OrderedList => ItemsAreLoose(n.content);
    case Blockquote => AllAreLoose(n.content);
    case Panel => AllAreLoose(n.content);
    case _ =>
  }

  lemma {:induction false} ItemsAreLoose(items: seq<Node>)
    requires forall c :: c in items ==> c.kind == ListItem && ListShape(c)
    ensures (forall c :: c in items ==> LooseItem(c)) && GatheredItems(items) == items
    decreases items, 1
  {
    hide BlockShape, LooseBlock, GatherAll;
    if items != [] {
      AllAreLoose(items[0].content);
      ItemsAreLoose(items[1..]);
      assert items == [items[0]] + items[1..];
    }
  }

  lemma {:induction false} AllAreLoose(ns: seq<Node>)
    requires forall c :: c in ns ==> BlockShape(c)
    ensures AllMixed(ns) && GatherAll([], ns) == ns
    decreases ns, 1
  {
    NothingShows();
    if ns != [] {
      BlocksAreLoose(ns[0]);
      AllAreLoose(ns[1..]);
      assert ns == [ns[0]] + ns[1..];
      assert !InlineKind(ns[0].kind);
      hide BlockShape, LooseBlock, Gathered, Paragraphs;
      assert [] + [ns[0]] + ns[1..] == ns;
    }
  }

  lemma NothingShows()
    ensures Trimmed([]) == [] && Paragraphs([]) == []
  {
  }

  // ---- what a run shows when it is read ----

  lemma {:induction false} BlankTrimLeft(s: string)
    ensures Blank(s) <==> TrimLeft(s) == ""
  {
    if s != "" && IsSpace(s[0]) {
      BlankTrimLeft(s[1..]);
      assert s == [s[0]] + s[1..];
    }
  }

  lemma {:induction false} TrimLeftJoins(a: string, b: string)
    ensures TrimLeft(a + b) == if Blank(a) then TrimLeft(b) else TrimLeft(a) + b
  {
    if a == "" {
      assert a + b == b;
    } else {
      assert a == [a[0]] + a[1..] && (a + b)[1..] == a[1..] + b;
      if IsSpace(a[0]) { TrimLeftJoins(a[1..], b); }
    }
  }

  lemma {:induction false} TrimRightJoins(a: string, b: string)
    ensures TrimRight(a + b) == if Blank(b) then TrimRight(a) else a + TrimRight(b)
  {
    if b == "" {
      assert a + b == a;
    } else {
      var n := |b| - 1;
      assert b == b[..n] + [b[n]] && (a + b)[..|a + b| - 1] == a + b[..n];
      if IsSpace(b[n]) { TrimRightJoins(a, b[..n]); }
    }
  }

  lemma EscapedBlank(s: string)
    ensures Blank(EscapeString(s)) <==> Blank(s)
  {
    hide EscapeString, TrimLeft, Blank;
    EscapeTrimLeft(s);
    BlankTrimLeft(s);
    BlankTrimLeft(EscapeString(s));
    EscapeNothing(TrimLeft(s));
  }

  lemma EscapeNothing(s: string)
    ensures EscapeString(s) == "" <==> s == ""
  {
    hide EscapeChar;
  }

  lemma UnmarkedSettles()
    ensures SettleMarks([]) == []
  {
  }

  lemma PlainPrints(text: string)
    ensures PrintNode(TextNode(text, [])) == EscapeString(text)
  {
    hide EscapeString, SettleMarks, PrintText;
    UnmarkedSettles();
    UnmarkedPrints(TextNode(text, []));
  }

  lemma PrintFirst(n: Node, ns: seq<Node>)
    ensures PrintNodes([n] + ns) == PrintNode(n) + PrintNodes(ns)
  {
    hide PrintNode;
    assert ([n] + ns)[1..] == ns;
  }

  /** Trimmed at its beginning, a run is printed as it was, without the space it began with. */
  lemma {:induction false} LeadPrints(run: seq<Node>)
    requires AllInline(run)
    ensures AllInline(LeadTrimmed(run)) && PrintNodes(LeadTrimmed(run)) == TrimLeft(PrintNodes(run))
  {
    hide PrintNode, EscapeString, PlainRun, TrimLeft, Blank;
    if run == [] {
      assert TrimLeft("") == "";
    } else {
      var n, rest := run[0], PrintNodes(run[1..]);
      assert n in run;
      if PlainRun(n).Some? {
        var t := PlainRun(n).value;
        RunPrints(n);
        EscapedBlank(t);
        TrimLeftJoins(EscapeString(t), rest);
        if Blank(t) {
          LeadPrints(run[1..]);
        } else {
          EscapeTrimLeft(t);
          PlainPrints(TrimLeft(t));
          PrintFirst(TextNode(TrimLeft(t), []), run[1..]);
        }
      } else {
        LeafReads(n, rest);
        NoTrimLeft(PrintNodes(run));
      }
    }
  }

  lemma NoTrimLeft(s: string)
    requires s == "" || s[0] == '<'
    ensures TrimLeft(s) == s
  {
  }

  lemma NoTrimRight(s: string)
    requires s == "" || s[|s| - 1] == '>'
    ensures TrimRight(s) == s
  {
  }

  predicate EndsWithTag(s: string) {
    s != "" && s[|s| - 1] == '>'
  }

  lemma ElemEnds(tag: string, name: string, body: string)
    ensures EndsWithTag(Elem(tag, name, body))
  {
  }

  lemma TextEnds(n: Node)
    requires SettleMarks(n.marks) != []
    ensures EndsWithTag(PrintText(n))
  {
    hide Elem, EndsWithTag, EscapeString, LinkOf, HasMark, Attr;
    var link, text := LinkOf(n.marks), EscapeString(n.text);
    var linked := PrintLink(link, text);
    var coded := Wrap(HasMark(n.marks, Code), "code", linked);
    var strong := Wrap(HasMark(n.marks, Strong), "strong", coded);
    ElemEnds(Attr("a", "href", EscapeString(link)), "a", text);
    ElemEnds("code", "code", linked);
    ElemEnds("strong", "strong", coded);
    ElemEnds("em", "em", strong);
  }

  lemma DateEnds(attrs: Attrs)
    requires Moment(attrs).Some?
    ensures EndsWithTag(PrintDate(attrs))
  {
    hide Attr, CivilText, Moment, DayAt;
  }

  /** What is more than plain characters is printed as an element. */
  lemma LeafEnds(n: Node)
    requires InlineKind(n.kind) && PlainRun(n).None?
    ensures EndsWithTag(PrintNode(n))
  {
    hide Elem, PrintText, EscapeString, StrAttr, Attr, PanelStatusColour, Moment, SettleMarks, PrintDate;
    match n.kind
    case Text => TextEnds(n);
    case Mention => MentionEnds(n.attrs);
    case Status => StatusEnds(n.attrs);
    case HardBreak =>
    case Date => DateEnds(n.attrs);
  }

  lemma MentionEnds(attrs: Attrs)
    ensures EndsWithTag(PrintMention(attrs))
  {
    hide Elem, EndsWithTag;
    var name := TrimAt(StrAttr(attrs, "text"));
    ElemEnds("ac:link", "ac:link", "<" + (Attr("ri:user", "ri:account-id", EscapeString(StrAttr(attrs, "id"))) + " /") + ">" +
             if name == "" then "" else Elem("ac:plain-text-link-body", "ac:plain-text-link-body", EscapeString(name)));
  }

  lemma StatusEnds(attrs: Attrs)
    ensures EndsWithTag(PrintStatus(attrs))
  {
    hide Elem, EndsWithTag, Parameter;
    ElemEnds(MacroTag("status"), "ac:structured-macro",
             Parameter("colour", PanelStatusColour(attrs)) + Parameter("title", EscapeString(StrAttr(attrs, "text"))));
  }

  lemma NothingPrints()
    ensures PrintNodes([]) == "" && TrimRight("") == ""
  {
  }

  lemma {:induction false} TailPrints(run: seq<Node>)
    requires AllInline(run)
    ensures AllInline(TailTrimmed(run)) && PrintNodes(TailTrimmed(run)) == TrimRight(PrintNodes(run))
    ensures TailTrimmed(run) != [] ==> PrintNodes(TailTrimmed(run)) != ""
  {
    hide PrintNode, EscapeString, PlainRun, TrimRight, Blank, PrintNodes;
    if run == [] {
      NothingPrints();
    } else {
      var k := |run| - 1;
      var n, before := run[k], PrintNodes(run[..k]);
      assert run == run[..k] + [n] && n in run;
      PrintSnoc(run[..k], n);
      if PlainRun(n).Some? {
        var t := PlainRun(n).value;
        RunPrints(n);
        EscapedBlank(t);
        TrimRightJoins(before, EscapeString(t));
        if Blank(t) {
          TailPrints(run[..k]);
        } else {
          EscapeTrimRight(t);
          TrimRightBlank(t);
          EscapeNothing(TrimRight(t));
          PlainPrints(TrimRight(t));
          PrintSnoc(run[..k], TextNode(TrimRight(t), []));
        }
      } else {
        LeafEnds(n);
        NoTrimRight(PrintNodes(run));
      }
    }
  }

  /** The trimmed run is printed as what the run prints, trimmed. */
  lemma TrimmedPrints(run: seq<Node>)
    requires AllInline(run)
    ensures AllInline(Trimmed(run)) && PrintNodes(Trimmed(run)) == TrimSpace(PrintNodes(run))
    ensures Trimmed(run) == [] <==> TrimSpace(PrintNodes(run)) == ""
  {
    hide PrintNode, AllInline, TrimLeft, TrimRight, LeadTrimmed, TailTrimmed;
    LeadPrints(run);
    TailPrints(LeadTrimmed(run));
    assert PrintNodes([]) == "";
  }

  /** Loose markup is read as the paragraph of its run. */
  lemma FlushReads(run: seq<Node>)
    requires AllInline(run)
    ensures Flush(PrintNodes(run)) == SettleBlocks(Paragraphs(run))
  {
    hide PrintNodes, AllInline, TrimSpace, Trimmed, InlineOf, SettleInline;
    TrimmedPrints(run);
    InlineRoundTrip(Trimmed(run));
    if Trimmed(run) != [] {
      OneParagraph(Trimmed(run));
    }
  }

  lemma OneParagraph(content: seq<Node>)
    ensures SettleBlocks([Block(Paragraph, map[], content)]) == [Block(Paragraph, map[], SettleInline("", content))]
  {
    hide SettleInline;
    assert [Block(Paragraph, map[], content)][1..] == [] && SettleBlocks([]) == [];
  }
}
