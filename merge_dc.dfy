/**
  `hocr-merge-dc`: copy the Dublin Core metadata of an XML record into the head of an hOCR
  file. Every `DC.*` meta of the head is removed first; then each element of the record in the
  Dublin Core namespace whose name is one of the fifteen elements of the Dublin Core Metadata
  Element Set 1.1 becomes one `meta` whose name is `DC.<element>` and whose content is the
  element's text, sanitised and cut to 500 characters.
 */
module MergeDc {
  import opened Wrappers
  import opened PyStr
  import opened NodeUtils

  // ---------------------------------------------------------------- the inputs

  /** An element of the record: its tag in `{namespace}local` form and its text nodes in document order. */
  datatype DcNode = DcNode(tag: string, textNodes: seq<string>)

  /** A child of the head: a `meta` with its optional `name` and `content`, or any other element. */
  datatype HeadNode = Meta(name: Option<string>, content: Option<string>) | Other(tag: string)

  /** `DC_KNOWN`: the fifteen elements, as tags after the namespace has been rewritten. */
  const DcKnown: seq<string> := [
    "dc:title", "dc:creator", "dc:subject", "dc:description", "dc:publisher",
    "dc:contributor", "dc:date", "dc:type", "dc:format", "dc:identifier",
    "dc:source", "dc:language", "dc:relation", "dc:coverage", "dc:rights"
  ]

  /** The namespace part of a tag, as the tag-rewriting pattern writes it. */
  const Namespace: string := "{http://purl.org/dc/elements/1.1/}"

  // ---------------------------------------------------------------- names

  /**
    The pattern `^{http://purl.org/dc/elements/1.1/}` matches at the start of `tag`: its braces
    and slashes are literal, each of its dots matches any one character except a newline, as a
    dot does in Python's `re` without `re.DOTALL`.
   */
  predicate NamespaceMatches(tag: string)
  {
    |Namespace| <= |tag| && forall i :: 0 <= i < |Namespace| ==> (Namespace[i] == '.' && tag[i] != '\n') || tag[i] == Namespace[i]
  }

  /** The tag with its namespace part replaced by `dc:`; any other tag is left alone. */
  function RewriteTag(tag: string): (t: string)
    ensures NamespaceMatches(tag) ==> StartsWith(t, "dc:") && t[3..] == tag[|Namespace|..]
    ensures !NamespaceMatches(tag) ==> t == tag
  {
    if NamespaceMatches(tag) then "dc:" + tag[|Namespace|..] else tag
  }

  /** `re.sub(r'^dc:', 'DC.', tag)`. */
  function MetaName(tag: string): (n: string)
    ensures StartsWith(tag, "dc:") ==> StartsWith(n, "DC.") && n[3..] == tag[3..]
    ensures !StartsWith(tag, "dc:") ==> n == tag
  {
    if StartsWith(tag, "dc:") then "DC." + tag[3..] else tag
  }

  /** An element of the record is taken over exactly when its rewritten tag is one of the fifteen. */
  predicate Known(node: DcNode)
  {
    RewriteTag(node.tag) in DcKnown
  }

  /** Every one of the fifteen is `dc:` followed by a non-empty element name. */
  lemma KnownShape(t: string)
    requires t in DcKnown
    ensures |t| > 3 && StartsWith(t, "dc:")
  {
  }

  // ---------------------------------------------------------------- values

  /** The characters the value pattern `[\t\r\n'"]` matches. */
  predicate Replaced(c: char)
  {
    c == '\t' || c == '\r' || c == '\n' || c == '\'' || c == '"'
  }

  /** `re.sub("[\t\r\n'\"]", " ", s)`: each of those characters becomes a space. */
  function Sanitise(s: string): (r: string)
    ensures |r| == |s|
    ensures forall i :: 0 <= i < |s| ==> r[i] == if Replaced(s[i]) then ' ' else s[i]
  {
    seq(|s|, i requires 0 <= i < |s| => if Replaced(s[i]) then ' ' else s[i])
  }

  /** `s[:n]`. */
  function Take(s: string, n: nat): (r: string)
    ensures |r| == if |s| <= n then |s| else n
    ensures r == s[..|r|]
  {
    if |s| <= n then s else s[..n]
  }

  /** The value of a meta made from a text: sanitised, stripped, then cut to 500 characters. */
  function Value(text: string): string
  {
    Take(Strip(Sanitise(text)), 500)
  }

  /** The value of the meta of an element: that of the element's text. */
  function Content(textNodes: seq<string>): string
  {
    Value(GetText(textNodes))
  }

  /** Stripping never brings back a character the sanitiser replaced. */
  lemma StripKeepsNone(s: string)
    requires forall i :: 0 <= i < |s| ==> !Replaced(s[i])
    ensures forall i :: 0 <= i < |Strip(s)| ==> !Replaced(Strip(s)[i])
  {
    var k := StripSlice(s);
    forall i | 0 <= i < |Strip(s)|
      ensures !Replaced(Strip(s)[i])
    {
      assert Strip(s)[i] == s[k + i];
    }
  }

  /** Stripping keeps a slice of the text with no whitespace at either end. */
  lemma StrippedEnds(s: string)
    ensures Strip(s) == [] || (!IsSpace(Strip(s)[0]) && !IsSpace(Strip(s)[|Strip(s)| - 1]))
  {
    var _ := StripSlice(s);
  }

  /**
    The value is at most 500 characters, holds no tab, carriage return, line feed or quote, does
    not start with whitespace, and is the start of the stripped, sanitised text; when that text
    fits it is the value, and then the value does not end with whitespace either.
   */
  lemma ValueMeaning(text: string)
    ensures var v := Value(text);
            var full := Strip(Sanitise(text));
            && |v| <= 500
            && (forall i :: 0 <= i < |v| ==> !Replaced(v[i]))
            && (v == [] || !IsSpace(v[0]))
            && v == full[..|v|]
            && (|full| <= 500 ==> v == full && (v == [] || !IsSpace(v[|v| - 1])))
  {
    var s := Sanitise(text);
    StripKeepsNone(s);
    var full := Strip(s);
    StrippedEnds(s);
    var v := Take(full, 500);
    if v != [] {
      assert v[0] == full[0];
    }
  }

  // ---------------------------------------------------------------- sequence helpers

  /** The values `f` gives for the elements of `xs` it is defined on, in order. */
  function Pick<A, B>(f: A -> Option<B>, xs: seq<A>): seq<B>
  {
    if xs == [] then [] else (if f(xs[0]).Some? then [f(xs[0]).value] else []) + Pick(f, xs[1..])
  }

  lemma {:induction false} PickConcat<A, B>(f: A -> Option<B>, a: seq<A>, b: seq<A>)
    ensures Pick(f, a + b) == Pick(f, a) + Pick(f, b)
  {
    if a == [] {
      assert a + b == b;
    } else {
      var ab := a + b;
      assert ab[0] == a[0] && ab[1..] == a[1..] + b;
      PickConcat(f, a[1..], b);
      var h := if f(a[0]).Some? then [f(a[0]).value] else [];
      assert Pick(f, ab) == h + (Pick(f, a[1..]) + Pick(f, b));
      assert Pick(f, a) == h + Pick(f, a[1..]);
    }
  }

  lemma {:induction false} PickEach<A, B>(f: A -> Option<B>, xs: seq<A>, p: B -> bool)
    requires forall k :: 0 <= k < |xs| && f(xs[k]).Some? ==> p(f(xs[k]).value)
    ensures forall k :: 0 <= k < |Pick(f, xs)| ==> p(Pick(f, xs)[k])
  {
    if xs != [] {
      PickEach(f, xs[1..], p);
      assert forall k :: 1 <= k < |xs| ==> xs[1..][k - 1] == xs[k];
    }
  }

  lemma {:induction false} PickAll<A, B>(f: A -> Option<B>, xs: seq<A>)
    requires forall k :: 0 <= k < |xs| ==> f(xs[k]).Some?
    ensures |Pick(f, xs)| == |xs| && forall k :: 0 <= k < |xs| ==> Pick(f, xs)[k] == f(xs[k]).value
  {
    if xs != [] {
      PickAll(f, xs[1..]);
    }
  }

  lemma {:induction false} PickNone<A, B>(f: A -> Option<B>, xs: seq<A>)
    requires forall k :: 0 <= k < |xs| ==> f(xs[k]).None?
    ensures Pick(f, xs) == []
  {
    if xs != [] {
      PickNone(f, xs[1..]);
    }
  }

  /** The elements of `xs` that `p` does not hold of, in order. */
  function Without<T>(p: T -> bool, xs: seq<T>): seq<T>
  {
    if xs == [] then [] else Without(p, xs[..|xs| - 1]) + (if p(xs[|xs| - 1]) then [] else [xs[|xs| - 1]])
  }

  lemma {:induction false} WithoutMeaning<T>(p: T -> bool, xs: seq<T>)
    ensures forall k :: 0 <= k < |Without(p, xs)| ==> !p(Without(p, xs)[k])
    ensures forall x :: x in xs && !p(x) ==> x in Without(p, xs)
    ensures forall x :: x in Without(p, xs) ==> x in xs
    ensures (forall k :: 0 <= k < |xs| ==> !p(xs[k])) ==> Without(p, xs) == xs
    ensures (forall k :: 0 <= k < |xs| ==> p(xs[k])) ==> Without(p, xs) == []
  {
    if xs != [] {
      var init := xs[..|xs| - 1];
      WithoutMeaning(p, init);
      assert xs == init + [xs[|xs| - 1]];
    }
  }

  lemma {:induction false} WithoutConcat<T>(p: T -> bool, a: seq<T>, b: seq<T>)
    ensures Without(p, a + b) == Without(p, a) + Without(p, b)
    decreases |b|
  {
    if b == [] {
      assert a + b == a;
    } else {
      var init := b[..|b| - 1];
      assert (a + b)[..|a + b| - 1] == a + init && (a + b)[|a + b| - 1] == b[|b| - 1];
      WithoutConcat(p, a, init);
    }
  }

  /** One step of an in-place removal: the element at `|done|` is dropped or kept. */
  lemma RemovalStep<T>(p: T -> bool, start: seq<T>, j: nat, cur: seq<T>)
    requires j < |start| && cur == Without(p, start[..j]) + start[j..]
    ensures cur[|Without(p, start[..j])|] == start[j]
    ensures p(start[j]) ==> cur[..|Without(p, start[..j])|] + cur[|Without(p, start[..j])| + 1..]
                            == Without(p, start[..j + 1]) + start[j + 1..]
    ensures !p(start[j]) ==> (cur == Without(p, start[..j + 1]) + start[j + 1..]
                            && |Without(p, start[..j + 1])| == |Without(p, start[..j])| + 1)
    ensures p(start[j]) ==> |Without(p, start[..j + 1])| == |Without(p, start[..j])|
  {
    assert start[..j + 1][..j] == start[..j];
    var done := Without(p, start[..j]);
    assert cur[..|done|] == done && cur[|done| + 1..] == start[j + 1..];
    assert start[j..] == [start[j]] + start[j + 1..];
  }

  /** One step of an appending loop over `xs`. */
  lemma AppendStep<A, B>(f: A -> Option<B>, before: seq<B>, xs: seq<A>, k: nat, cur: seq<B>)
    requires k < |xs| && cur == before + Pick(f, xs[..k])
    ensures f(xs[k]).Some? ==> cur + [f(xs[k]).value] == before + Pick(f, xs[..k + 1])
    ensures f(xs[k]).None? ==> cur == before + Pick(f, xs[..k + 1])
  {
    assert xs[..k + 1] == xs[..k] + [xs[k]];
    PickConcat(f, xs[..k], [xs[k]]);
    assert [xs[k]][1..] == [];
  }

  // ---------------------------------------------------------------- the new metas

  /** The meta an element of the record becomes, when it is one of the fifteen. */
  function MetaFor(node: DcNode): HeadNode
  {
    Meta(Some(MetaName(RewriteTag(node.tag))), Some(Content(node.textNodes)))
  }

  /** The loop body: a meta for an element that is one of the fifteen, nothing for any other. */
  function MetaOf(node: DcNode): Option<HeadNode>
  {
    if Known(node) then Some(MetaFor(node)) else None
  }

  /** The metas the record gives, in the order of its elements. */
  function NewMetas(dc: seq<DcNode>): seq<HeadNode>
  {
    Pick(MetaOf, dc)
  }

  /** A meta of the kind the removal step looks for: its name starts with `DC.`. */
  predicate IsDcMeta(n: HeadNode)
  {
    n.Meta? && n.name.Some? && StartsWith(n.name.value, "DC.")
  }

  /**
    A meta as the merge writes it: named `DC.<element>` for one of the fifteen elements, with a
    content of at most 500 characters holding no tab, carriage return, line feed or quote.
   */
  predicate WrittenMeta(m: HeadNode)
  {
    && m.Meta? && m.name.Some? && m.content.Some?
    && StartsWith(m.name.value, "DC.") && "dc:" + m.name.value[3..] in DcKnown
    && |m.content.value| <= 500
    && (forall i :: 0 <= i < |m.content.value| ==> !Replaced(m.content.value[i]))
  }

  /** The meta of a known element is written that way, and is one the removal step looks for. */
  lemma MetaForMeaning(node: DcNode)
    requires Known(node)
    ensures WrittenMeta(MetaFor(node)) && IsDcMeta(MetaFor(node))
  {
    var t := RewriteTag(node.tag);
    KnownShape(t);
    var n := MetaName(t);
    assert "dc:" + n[3..] == t;
    ValueMeaning(GetText(node.textNodes));
  }

  /** Every new meta is written that way, and so is one the removal step looks for. */
  lemma NewMetasMeaning(dc: seq<DcNode>)
    ensures forall k :: 0 <= k < |NewMetas(dc)| ==> WrittenMeta(NewMetas(dc)[k]) && IsDcMeta(NewMetas(dc)[k])
  {
    forall k | 0 <= k < |dc| && MetaOf(dc[k]).Some?
      ensures WrittenMeta(MetaOf(dc[k]).value) && IsDcMeta(MetaOf(dc[k]).value)
    {
      MetaForMeaning(dc[k]);
    }
    PickEach(MetaOf, dc, m => WrittenMeta(m) && IsDcMeta(m));
  }

  /** When every element is one of the fifteen, meta `k` is the one of element `k`. */
  lemma AllKnownInOrder(dc: seq<DcNode>)
    requires forall k :: 0 <= k < |dc| ==> Known(dc[k])
    ensures |NewMetas(dc)| == |dc|
    ensures forall k :: 0 <= k < |dc| ==> NewMetas(dc)[k] == MetaFor(dc[k])
  {
    PickAll(MetaOf, dc);
  }

  /** Elements outside the fifteen give no meta. */
  lemma UnknownGiveNothing(dc: seq<DcNode>)
    requires forall k :: 0 <= k < |dc| ==> !Known(dc[k])
    ensures NewMetas(dc) == []
  {
    PickNone(MetaOf, dc);
  }

  /** The metas of a record are those of its first part, then those of the rest: source order. */
  lemma NewMetasInOrder(a: seq<DcNode>, b: seq<DcNode>)
    ensures NewMetas(a + b) == NewMetas(a) + NewMetas(b)
  {
    PickConcat(MetaOf, a, b);
  }

  /** A tag in the Dublin Core namespace is rewritten to `dc:` and its local name. */
  lemma RewriteNamespace(local: string)
    ensures RewriteTag(Namespace + local) == "dc:" + local
  {
    var tag := Namespace + local;
    assert forall i :: 0 <= i < |Namespace| ==> tag[i] == Namespace[i];
    assert tag[|Namespace|..] == local;
  }

  /** A newline where the pattern has a dot is no match, and the tag is left alone. */
  lemma NewlineIsNoDot(local: string)
    ensures RewriteTag("{http://purl\norg/dc/elements/1.1/}" + local) == "{http://purl\norg/dc/elements/1.1/}" + local
  {
    var tag := "{http://purl\norg/dc/elements/1.1/}" + local;
    assert Namespace[12] == '.' && tag[12] == '\n';
  }

  lemma {:induction false} CollapsePlain(s: string)
    requires forall i :: 0 <= i < |s| ==> !IsSpace(s[i])
    ensures Collapse(s) == s
  {
    if s != [] {
      CollapsePlain(s[1..]);
    }
  }

  /** A text of capital letters that fits is its own value. */
  lemma PlainText(s: string)
    requires |s| <= 500 && forall i :: 0 <= i < |s| ==> 'A' <= s[i] <= 'Z'
    ensures Content([s]) == s
  {
    assert [s][1..] == [];
    assert Concat([s]) == s + [] == s;
    CollapsePlain(s);
    assert GetText([s]) == s;
    assert Sanitise(s) == s;
    assert LStrip(s) == s;
    assert RStrip(s) == s;
    assert Strip(s) == s;
    assert Value(s) == s;
  }

  /** A `dc:title` of `UKOLN` gives the meta `name="DC.title" content="UKOLN"`. */
  lemma TitleExample()
    ensures NewMetas([DcNode(Namespace + "title", ["UKOLN"])]) == [Meta(Some("DC.title"), Some("UKOLN"))]
  {
    var node := DcNode(Namespace + "title", ["UKOLN"]);
    RewriteNamespace("title");
    assert "dc:" + "title" == "dc:title";
    assert Known(node);
    assert MetaName("dc:title") == "DC.title";
    PlainText("UKOLN");
    PickAll(MetaOf, [node]);
  }

  // ---------------------------------------------------------------- the head

  /** The head's children with every `DC.*` meta removed, the others in their order. */
  function Kept(children: seq<HeadNode>): seq<HeadNode>
  {
    Without(IsDcMeta, children)
  }

  /** No `DC.*` meta is left, every other child is, and nothing else comes in. */
  lemma KeptMeaning(children: seq<HeadNode>)
    ensures forall k :: 0 <= k < |Kept(children)| ==> !IsDcMeta(Kept(children)[k])
    ensures forall n :: n in children && !IsDcMeta(n) ==> n in Kept(children)
    ensures forall n :: n in Kept(children) ==> n in children
    ensures (forall k :: 0 <= k < |children| ==> !IsDcMeta(children[k])) ==> Kept(children) == children
  {
    WithoutMeaning(IsDcMeta, children);
  }

  /** The head after a merge: its children without `DC.*` metas, then the record's metas. */
  function Merged(children: seq<HeadNode>, dc: seq<DcNode>): seq<HeadNode>
  {
    Kept(children) + NewMetas(dc)
  }

  /**
    Merging the same record twice gives the head of one merge: the second removal takes away
    exactly the metas the first one added.
   */
  lemma MergeIdempotent(children: seq<HeadNode>, dc: seq<DcNode>)
    ensures Merged(Merged(children, dc), dc) == Merged(children, dc)
  {
    NewMetasMeaning(dc);
    RemoveAgain(IsDcMeta, children, NewMetas(dc));
  }

  /** Removing again after appending only removable elements leaves what the first removal left. */
  lemma RemoveAgain<T>(p: T -> bool, xs: seq<T>, ys: seq<T>)
    requires forall k :: 0 <= k < |ys| ==> p(ys[k])
    ensures Without(p, Without(p, xs) + ys) == Without(p, xs)
  {
    var kept := Without(p, xs);
    WithoutConcat(p, kept, ys);
    WithoutMeaning(p, xs);
    WithoutMeaning(p, kept);
    WithoutMeaning(p, ys);
    assert kept + [] == kept;
  }

  /** The `head` element of the hOCR file, whose children the merge rewrites in place. */
  class Head {
    var children: seq<HeadNode>

    constructor (children: seq<HeadNode>)
      ensures this.children == children
    {
      this.children := children;
    }

    /** The removal loop: each `DC.*` meta is taken out of the head where it stands. */
    method RemoveDcMetas()
      modifies this
      ensures children == Kept(old(children))
    {
      ghost var start := children;
      var i := 0;
      ghost var j := 0;
      while i < |children|
        invariant j <= |start| && i == |Without(IsDcMeta, start[..j])|
        invariant children == Without(IsDcMeta, start[..j]) + start[j..]
        decreases |start| - j
      {
        RemovalStep(IsDcMeta, start, j, children);
        if IsDcMeta(children[i]) {
          children := children[..i] + children[i + 1..];
        } else {
          i := i + 1;
        }
        j := j + 1;
      }
      assert start[..j] == start;
    }

    /** The append loop: one new meta at the end of the head per known element, in order. */
    method AppendMetas(dc: seq<DcNode>)
      modifies this
      ensures children == old(children) + NewMetas(dc)
    {
      ghost var before := children;
      for k := 0 to |dc|
        invariant children == before + Pick(MetaOf, dc[..k])
      {
        AppendStep(MetaOf, before, dc, k, children);
        if RewriteTag(dc[k].tag) in DcKnown {
          var name := MetaName(RewriteTag(dc[k].tag));
          var value := Content(dc[k].textNodes);
          children := children + [Meta(Some(name), Some(value))];
        }
      }
      assert dc[..|dc|] == dc;
    }
  }

  /**
    `merge_dc` on the head found in the hOCR file (`null` when it has none) and the record's
    elements in the Dublin Core namespace, in document order.
   */
  method MergeDublinCore(head: Head?, dc: seq<DcNode>) returns (err: Option<Error>)
    modifies head
    ensures head == null <==> err == Some(AssertionError)
    ensures head != null ==> err == None && head.children == Merged(old(head.children), dc)
  {
    if head == null {
      return Some(AssertionError);
    }
    head.RemoveDcMetas();
    head.AppendMetas(dc);
    err := None;
  }
}
