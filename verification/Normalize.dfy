/** The ingest normaliser: what it removes, and what it keeps. */
module Normalize {
  import opened Text
  import opened Adf

  predicate SupportedNode(kind: Kind) {
    !kind.Media? && !kind.Unknown?
  }

  predicate SupportedMark(kind: MarkKind) {
    !kind.OtherMark?
  }

  /** The empty node, which stands for a node that was dropped. */
  const DROPPED := Node(Unknown(""), map[], [], "", [])

  // ---- the normal form ----

  function KeptMarks(marks: seq<Mark>): seq<Mark> {
    if marks == [] then []
    else (if SupportedMark(marks[0].kind) then [marks[0]] else []) + KeptMarks(marks[1..])
  }

  function TextPieces(n: Node): seq<Node>
    decreases n, 0
  {
    (if n.text != "" then [TextNode(n.text, [])] else []) + AllPieces(n.content)
  }

  function AllPieces(ns: seq<Node>): seq<Node>
    decreases ns, 1
  {
    if ns == [] then [] else TextPieces(ns[0]) + AllPieces(ns[1..])
  }

  function Normal(n: Node): Node
    decreases n, 0
  {
    if !SupportedNode(n.kind) then
      if TextPieces(n) == [] then DROPPED else Block(Paragraph, map[], TextPieces(n))
    else n.(marks := KeptMarks(n.marks), content := NormalAll(n.content))
  }

  function NormalAll(ns: seq<Node>): (r: seq<Node>)
    ensures |r| <= |ns|
    decreases ns, 1
  {
    if ns == [] then []
    else
      var c := Normal(ns[0]);
      (if c.kind == Unknown("") then [] else [c]) + NormalAll(ns[1..])
  }

  /** Whether normalising reports a change. */
  predicate Changed(n: Node) {
    !SupportedNode(n.kind) || LosesMark(n.marks) || (exists c :: c in n.content && Changed(c))
  }

  predicate LosesMark(marks: seq<Mark>) {
    exists m :: m in marks && !SupportedMark(m.kind)
  }

  predicate AnyChanged(ns: seq<Node>) {
    exists c :: c in ns && Changed(c)
  }

  // ---- the helpers, looping over local slices ----

  method NormalizeNode(n: Node) returns (out: Node, changed: bool)
    ensures out == Normal(n) && changed == Changed(n)
    decreases n
  {
    if !SupportedNode(n.kind) {
      var texts := CollectTextNodes(n);
      if |texts| == 0 {
        return DROPPED, true;
      }
      return Block(Paragraph, map[], texts), true;
    }
    var marks, lost := KeepMarks(n.marks);
    var kept, ch := NormalizeAll(n.content);
    out, changed := n.(marks := marks, content := kept), lost || ch;
  }

  lemma KeptSnoc(marks: seq<Mark>, m: Mark)
    ensures KeptMarks(marks + [m]) == KeptMarks(marks) + (if SupportedMark(m.kind) then [m] else [])
    ensures LosesMark(marks + [m]) <==> LosesMark(marks) || !SupportedMark(m.kind)
  {
    hide SupportedMark;
    if marks == [] {
      assert marks + [m] == [m];
    } else {
      KeptSnoc(marks[1..], m);
      assert (marks + [m])[0] == marks[0] && (marks + [m])[1..] == marks[1..] + [m];
      Assoc(if SupportedMark(marks[0].kind) then [marks[0]] else [], KeptMarks(marks[1..]), if SupportedMark(m.kind) then [m] else []);
    }
  }

  method KeepMarks(marks: seq<Mark>) returns (kept: seq<Mark>, changed: bool)
    ensures kept == KeptMarks(marks) && changed == LosesMark(marks)
  {
    hide SupportedMark;
    kept, changed := [], false;
    for i := 0 to |marks|
      invariant kept == KeptMarks(marks[..i])
      invariant changed == LosesMark(marks[..i])
    {
      hide KeptMarks, LosesMark;
      var m := marks[i];
      assert marks[..i + 1] == marks[..i] + [m];
      KeptSnoc(marks[..i], m);
      if SupportedMark(m.kind) {
        kept := kept + [m];
      } else {
        changed := true;
      }
    }
    assert marks[..|marks|] == marks;
  }

  lemma NormalSnoc(ns: seq<Node>, n: Node)
    ensures NormalAll(ns + [n]) == NormalAll(ns) + (if Normal(n).kind == Unknown("") then [] else [Normal(n)])
    ensures AnyChanged(ns + [n]) <==> AnyChanged(ns) || Changed(n)
  {
    hide Normal, Changed;
    if ns == [] {
      assert ns + [n] == [n];
    } else {
      NormalSnoc(ns[1..], n);
      assert (ns + [n])[0] == ns[0] && (ns + [n])[1..] == ns[1..] + [n];
      Assoc(if Normal(ns[0]).kind == Unknown("") then [] else [Normal(ns[0])], NormalAll(ns[1..]),
            if Normal(n).kind == Unknown("") then [] else [Normal(n)]);
    }
  }

  method NormalizeAll(nodes: seq<Node>) returns (kept: seq<Node>, changed: bool)
    ensures kept == NormalAll(nodes) && changed == AnyChanged(nodes)
    decreases nodes
  {
    hide Changed, Normal;
    kept, changed := [], false;
    for i := 0 to |nodes|
      invariant kept == NormalAll(nodes[..i])
      invariant changed == AnyChanged(nodes[..i])
    {
      hide NormalAll, AnyChanged;
      var nc, ch := NormalizeNode(nodes[i]);
      assert nodes[..i + 1] == nodes[..i] + [nodes[i]];
      NormalSnoc(nodes[..i], nodes[i]);
      changed := changed || ch;
      if nc.kind != Unknown("") {
        kept := kept + [nc];
      }
    }
    assert nodes[..|nodes|] == nodes;
  }

  method CollectTextNodes(n: Node) returns (out: seq<Node>)
    ensures out == TextPieces(n)
    decreases n
  {
    out := [];
    if n.text != "" {
      out := [TextNode(n.text, [])];
    }
    for i := 0 to |n.content|
      invariant out + AllPieces(n.content[i..]) == TextPieces(n)
    {
      var more := CollectTextNodes(n.content[i]);
      assert n.content[i..][1..] == n.content[i + 1..];
      assert out + (more + AllPieces(n.content[i + 1..])) == (out + more) + AllPieces(n.content[i + 1..]);
      out := out + more;
    }
    assert n.content[|n.content|..] == [] && out + [] == out;
  }

  // ---- only supported nodes and marks remain ----

  predicate Clean(n: Node) {
    && SupportedNode(n.kind)
    && (forall m :: m in n.marks ==> SupportedMark(m.kind))
    && (forall c :: c in n.content ==> Clean(c))
  }

  lemma {:induction false} KeptAreSupported(marks: seq<Mark>)
    ensures forall m :: m in KeptMarks(marks) ==> SupportedMark(m.kind)
  {
    if marks != [] {
      KeptAreSupported(marks[1..]);
    }
  }

  lemma {:induction false} PieceIsText(n: Node)
    ensures forall c :: c in TextPieces(n) ==> c.text != "" && c == TextNode(c.text, [])
    decreases n, 0
  {
    PiecesAreText(n.content);
  }

  lemma {:induction false} PiecesAreText(ns: seq<Node>)
    ensures forall c :: c in AllPieces(ns) ==> c.text != "" && c == TextNode(c.text, [])
    decreases ns, 1
  {
    if ns != [] {
      PieceIsText(ns[0]);
      PiecesAreText(ns[1..]);
    }
  }

  /** What is kept is made of supported nodes and marks only. */
  lemma {:induction false} NormalIsClean(n: Node)
    ensures Normal(n) == DROPPED || Clean(Normal(n))
    ensures SupportedNode(n.kind) ==> Clean(Normal(n))
    decreases n, 0
  {
    if SupportedNode(n.kind) {
      KeptAreSupported(n.marks);
      AllNormalAreClean(n.content);
    } else {
      PieceIsText(n);
    }
  }

  lemma {:induction false} AllNormalAreClean(ns: seq<Node>)
    ensures forall c :: c in NormalAll(ns) ==> Clean(c)
    decreases ns, 1
  {
    if ns != [] {
      NormalIsClean(ns[0]);
      AllNormalAreClean(ns[1..]);
    }
  }

  // ---- normalising twice ----

  lemma {:induction false} SupportedAreKept(marks: seq<Mark>)
    requires forall m :: m in marks ==> SupportedMark(m.kind)
    ensures KeptMarks(marks) == marks
  {
    if marks != [] {
      assert marks[0] in marks;
      SupportedAreKept(marks[1..]);
    }
  }

  lemma {:induction false} CleanIsNormal(n: Node)
    requires Clean(n)
    ensures Normal(n) == n
    decreases n, 0
  {
    SupportedAreKept(n.marks);
    AllCleanAreNormal(n.content);
  }

  lemma {:induction false} AllCleanAreNormal(ns: seq<Node>)
    requires forall c :: c in ns ==> Clean(c)
    ensures NormalAll(ns) == ns
    decreases ns, 1
  {
    if ns != [] {
      CleanIsNormal(ns[0]);
      AllCleanAreNormal(ns[1..]);
      assert ns == [ns[0]] + ns[1..];
    }
  }

  /** Normalising is idempotent, on every document. */
  lemma NormalTwice(n: Node)
    ensures Normal(Normal(n)) == Normal(n)
  {
    NormalIsClean(n);
    if Normal(n) != DROPPED {
      CleanIsNormal(Normal(n));
    }
  }

  // ---- the text stays ----

  lemma {:induction false} TextsConcat(a: seq<Node>, b: seq<Node>)
    ensures CollectTexts(a + b) == CollectTexts(a) + CollectTexts(b)
  {
    hide CollectText;
    if a == [] {
      assert a + b == b;
    } else {
      TextsConcat(a[1..], b);
      assert (a + b)[1..] == a[1..] + b;
      Assoc(CollectText(a[0]), CollectTexts(a[1..]), CollectTexts(b));
    }
  }

  lemma OneText(text: string)
    requires text != ""
    ensures CollectTexts([TextNode(text, [])]) == text + "\n"
  {
    var t := TextNode(text, []);
    assert CollectTexts([]) == "" && [t][1..] == [];
    assert CollectText(t) == text + "\n" + "";
    assert CollectTexts([t]) == CollectText(t) + CollectTexts([]);
  }

  lemma {:induction false} PiecesKeepText(n: Node)
    ensures CollectTexts(TextPieces(n)) == CollectText(n)
    decreases n, 0
  {
    AllPiecesKeepText(n.content);
    if n.text != "" {
      OneText(n.text);
      TextsConcat([TextNode(n.text, [])], AllPieces(n.content));
    } else {
      assert [] + AllPieces(n.content) == AllPieces(n.content);
    }
  }

  lemma {:induction false} AllPiecesKeepText(ns: seq<Node>)
    ensures CollectTexts(AllPieces(ns)) == CollectTexts(ns)
    decreases ns, 1
  {
    hide TextPieces, CollectText;
    if ns != [] {
      PiecesKeepText(ns[0]);
      AllPiecesKeepText(ns[1..]);
      TextsConcat(TextPieces(ns[0]), AllPieces(ns[1..]));
    }
  }

  /** The plain text of a document is not changed by normalising it. */
  lemma {:induction false} NormalKeepsText(n: Node)
    ensures CollectText(Normal(n)) == CollectText(n)
    ensures PlainText(Normal(n)) == PlainText(n)
    decreases n, 0
  {
    hide TrimNewlines;
    if SupportedNode(n.kind) {
      AllNormalKeepText(n.content);
    } else {
      PiecesKeepText(n);
      if TextPieces(n) != [] {
        assert "" + CollectTexts(TextPieces(n)) == CollectTexts(TextPieces(n));
      }
    }
  }

  lemma {:induction false} AllNormalKeepText(ns: seq<Node>)
    ensures CollectTexts(NormalAll(ns)) == CollectTexts(ns)
    decreases ns, 1
  {
    hide CollectText;
    if ns != [] {
      var c, rest := Normal(ns[0]), NormalAll(ns[1..]);
      NormalKeepsText(ns[0]);
      AllNormalKeepText(ns[1..]);
      if c.kind == Unknown("") {
        DroppedHasNoText(ns[0]);
        assert [] + rest == rest;
      } else {
        assert ([c] + rest)[1..] == rest;
      }
    }
  }

  lemma DroppedHasNoText(n: Node)
    requires Normal(n).kind == Unknown("")
    ensures CollectText(Normal(n)) == ""
  {
    assert Normal(n) == DROPPED;
  }

  // ---- when the document is returned as it came ----

  lemma {:induction false} AllKeptAreSupported(marks: seq<Mark>)
    ensures KeptMarks(marks) == marks <==> !LosesMark(marks)
    ensures |KeptMarks(marks)| <= |marks|
  {
    if marks != [] {
      AllKeptAreSupported(marks[1..]);
      assert marks == [marks[0]] + marks[1..];
      var kept := KeptMarks(marks);
      if kept == marks {
        assert |KeptMarks(marks[1..])| <= |marks| - 1;
        assert SupportedMark(marks[0].kind);
        assert kept[1..] == KeptMarks(marks[1..]);
      }
    }
  }

  /** A change is reported exactly when the normal form differs (or nothing is left of the node). */
  lemma {:induction false} ChangedExactly(n: Node)
    ensures Normal(n) == n <==> !Changed(n) || n == DROPPED
    decreases n, 0
  {
    if SupportedNode(n.kind) {
      AllKeptAreSupported(n.marks);
      AllChangedExactly(n.content);
      assert Normal(n) == n <==> KeptMarks(n.marks) == n.marks && NormalAll(n.content) == n.content;
    } else {
      PieceIsText(n);
    }
  }

  lemma {:induction false} AllChangedExactly(ns: seq<Node>)
    ensures NormalAll(ns) == ns <==> forall c :: c in ns ==> !Changed(c)
    decreases ns, 1
  {
    hide Changed;
    if ns != [] {
      ChangedExactly(ns[0]);
      AllChangedExactly(ns[1..]);
      DroppedIsChanged();
      var c, rest := Normal(ns[0]), NormalAll(ns[1..]);
      assert ns == [ns[0]] + ns[1..];
      if NormalAll(ns) == ns {
        assert c.kind != Unknown("");
        assert ([c] + rest)[1..] == rest && ([c] + rest)[0] == c;
        assert c == ns[0];
        DroppedKind(ns[0]);
      }
      if forall d :: d in ns ==> !Changed(d) {
        assert c == ns[0];
        KeptKind(ns[0]);
      }
    }
  }

  lemma DroppedIsChanged()
    ensures Changed(DROPPED) && Normal(DROPPED) == DROPPED
  {
  }

  lemma DroppedKind(n: Node)
    ensures Normal(n).kind != Unknown("") ==> n != DROPPED
  {
    DroppedIsChanged();
  }

  lemma KeptKind(n: Node)
    requires !Changed(n)
    ensures n.kind != Unknown("")
  {
  }

  // ---- what an unsupported node becomes ----

  /** Unmarked text, and nothing else. */
  predicate BareText(n: Node) {
    n == TextNode(n.text, []) && n.text != ""
  }

  lemma {:induction false} PiecesAreBare(n: Node)
    ensures forall c :: c in TextPieces(n) ==> BareText(c)
    decreases n, 0
  {
    AllPiecesAreBare(n.content);
  }

  lemma {:induction false} AllPiecesAreBare(ns: seq<Node>)
    ensures forall c :: c in AllPieces(ns) ==> BareText(c)
    decreases ns, 1
  {
    hide TextPieces, BareText;
    if ns != [] {
      PiecesAreBare(ns[0]);
      AllPiecesAreBare(ns[1..]);
    }
  }

  lemma SomeText(ns: seq<Node>)
    requires ns != [] && BareText(ns[0])
    ensures CollectTexts(ns) != ""
  {
    assert CollectText(ns[0]) == ns[0].text + "\n" + CollectTexts(ns[0].content);
    assert CollectTexts(ns) == CollectText(ns[0]) + CollectTexts(ns[1..]);
    hide CollectText, CollectTexts;
  }

  /**
   * A node that is not supported becomes a paragraph of the texts in it, unmarked and in their order;
   * one without any text is dropped.
   */
  lemma UnsupportedBecomesText(n: Node)
    requires n.kind.Media? || n.kind.Unknown?
    ensures CollectText(n) == "" ==> Normal(n) == DROPPED
    ensures CollectText(n) != "" ==>
              var p := Normal(n);
              && p.kind == Paragraph && p.attrs == map[] && p.text == "" && p.marks == []
              && p.content != [] && (forall c :: c in p.content ==> BareText(c))
              && CollectTexts(p.content) == CollectText(n)
  {
    hide CollectText, CollectTexts, BareText, TextPieces;
    PiecesAreBare(n);
    PiecesKeepText(n);
    if TextPieces(n) == [] {
      NoTexts();
    } else {
      SomeText(TextPieces(n));
    }
  }

  lemma NoTexts()
    ensures CollectTexts([]) == ""
  {
  }

  /** A supported node keeps its kind, its attributes and its own text. */
  lemma SupportedKeepsKind(n: Node)
    requires !n.kind.Media? && !n.kind.Unknown?
    ensures var m := Normal(n); m.kind == n.kind && m.attrs == n.attrs && m.text == n.text
    ensures forall m :: m in Normal(n).marks <==> m in n.marks && !m.kind.OtherMark?
  {
    hide NormalAll;
    MarksKept(n.marks);
  }

  lemma {:induction false} MarksKept(marks: seq<Mark>)
    ensures forall m :: m in KeptMarks(marks) <==> m in marks && SupportedMark(m.kind)
  {
    if marks != [] {
      MarksKept(marks[1..]);
      assert marks == [marks[0]] + marks[1..];
    }
  }
}
