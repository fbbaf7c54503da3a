/** The Gmail message payload as a tree of MIME parts, the stack walk over
    it, the subject header lookup and the choice of the HTML and plain-text
    bodies. The three intake scripts carry identical copies of these helpers. */
module Mime {
  import opened Text
  import opened Base64Url

  /** One node of a Gmail payload. A key the API leaves out reads as ""
      (or no children), which is how every caller treats it. */
  datatype Part = Part(
    mimeType: string,
    filename: string,
    data: string,          // body.data, base64url text
    attachmentId: string,  // body.attachmentId
    parts: seq<Part>)

  /** A header of the top-level payload; a missing value reads as "". */
  datatype Header = Header(name: string, value: string)

  datatype Message = Message(id: string, headers: seq<Header>, payload: Part)

  // ---------------------------------------------------------------------
  // _walk_parts

  /** The parts `_walk_parts` yields once `stack` holds `s`: it pops the
      last entry, yields it and pushes its children in list order. */
  function WalkStack(s: seq<Part>): seq<Part>
    decreases s
  {
    if s == [] then []
    else
      var p := s[|s| - 1];
      assert p in s;
      [p] + WalkStack(p.parts) + WalkStack(s[..|s| - 1])
  }

  lemma {:induction false} WalkStackAppend(a: seq<Part>, b: seq<Part>)
    ensures WalkStack(a + b) == WalkStack(b) + WalkStack(a)
    decreases b
  {
    if b == [] {
      assert a + b == a;
    } else {
      assert (a + b)[..|a + b| - 1] == a + b[..|b| - 1];
      WalkStackAppend(a, b[..|b| - 1]);
    }
  }

  /** The pushes of one step of the walk: the children in list order. */
  method PushChildren(stack: seq<Part>, children: seq<Part>) returns (r: seq<Part>)
    ensures r == stack + children
  {
    r := stack;
    var i := 0;
    while i < |children|
      invariant 0 <= i <= |children|
      invariant r == stack + children[..i]
    {
      assert children[..i + 1] == children[..i] + [children[i]];
      r := r + [children[i]];
      i := i + 1;
    }
    assert children[..i] == children;
  }

  /** `list(_walk_parts(root))`, computed with the explicit stack. */
  method Walk(root: Part) returns (out: seq<Part>)
    ensures out == WalkStack([root])
  {
    var stack := [root];
    out := [];
    while stack != []
      invariant out + WalkStack(stack) == WalkStack([root])
      decreases |WalkStack(stack)|
    {
      var p := stack[|stack| - 1];
      WalkStackPop(stack);
      out := out + [p];
      stack := PushChildren(stack[..|stack| - 1], p.parts);
    }
  }

  /** One step of the walk: pop the top, push its children. */
  lemma WalkStackPop(stack: seq<Part>)
    requires stack != []
    ensures WalkStack(stack)
         == [stack[|stack| - 1]] + WalkStack(stack[..|stack| - 1] + stack[|stack| - 1].parts)
  {
    WalkStackAppend(stack[..|stack| - 1], stack[|stack| - 1].parts);
  }

  /** Reference order: the node, then its children's subtrees from the
      last child back to the first. */
  function Preorder(p: Part): seq<Part>
    decreases p, 1
  {
    [p] + PreorderLastFirst(p.parts)
  }

  function PreorderLastFirst(cs: seq<Part>): seq<Part>
    decreases cs, 0
  {
    if cs == [] then [] else PreorderLastFirst(cs[1..]) + Preorder(cs[0])
  }

  lemma {:induction false} PreorderLastFirstSnoc(cs: seq<Part>, x: Part)
    ensures PreorderLastFirst(cs + [x]) == Preorder(x) + PreorderLastFirst(cs)
    decreases cs
  {
    if cs == [] {
      assert ([] + [x])[1..] == [];
    } else {
      assert (cs + [x])[1..] == cs[1..] + [x];
      PreorderLastFirstSnoc(cs[1..], x);
    }
  }

  /** The stack walk is the root-first traversal in which later siblings
      come before earlier ones. */
  lemma {:induction false} WalkIsPreorder(s: seq<Part>)
    ensures WalkStack(s) == PreorderLastFirst(s)
    decreases s
  {
    if s != [] {
      var p := s[|s| - 1];
      assert p in s;
      WalkIsPreorder(p.parts);
      WalkIsPreorder(s[..|s| - 1]);
      PreorderLastFirstSnoc(s[..|s| - 1], p);
      assert s[..|s| - 1] + [p] == s;
    }
  }

  /** The nodes of a tree, counted with multiplicity. */
  function Nodes(p: Part): multiset<Part>
    decreases p, 1
  {
    multiset{p} + NodesOf(p.parts)
  }

  function NodesOf(cs: seq<Part>): multiset<Part>
    decreases cs, 0
  {
    if cs == [] then multiset{} else NodesOf(cs[..|cs| - 1]) + Nodes(cs[|cs| - 1])
  }

  lemma {:induction false} WalkStackNodes(s: seq<Part>)
    ensures multiset(WalkStack(s)) == NodesOf(s)
    decreases s
  {
    if s != [] {
      var p := s[|s| - 1];
      assert p in s;
      WalkStackNodes(p.parts);
      WalkStackNodes(s[..|s| - 1]);
    }
  }

  /** `_walk_parts` yields the root first and every node of the tree exactly
      once. */
  lemma WalkVisitsEachNodeOnce(root: Part)
    ensures WalkStack([root]) != [] && WalkStack([root])[0] == root
    ensures multiset(WalkStack([root])) == Nodes(root)
  {
    WalkStackNodes([root]);
    assert [root][..0] == [];
  }

  // ---------------------------------------------------------------------
  // _get_subject

  /** Header `k` is the first one named exactly "Subject". */
  predicate IsFirstSubject(hs: seq<Header>, k: int)
  {
    0 <= k < |hs| && hs[k].name == "Subject" && forall j :: 0 <= j < k ==> hs[j].name != "Subject"
  }

  /** The value of the first header named exactly "Subject", else "". */
  function GetSubject(hs: seq<Header>): (r: string)
    ensures (forall k :: 0 <= k < |hs| ==> hs[k].name != "Subject") ==> r == ""
    ensures forall k :: IsFirstSubject(hs, k) ==> r == hs[k].value
  {
    if hs == [] then ""
    else if hs[0].name == "Subject" then
      assert forall k :: IsFirstSubject(hs, k) ==> k == 0;
      hs[0].value
    else
      var r := GetSubject(hs[1..]);
      assert forall k :: IsFirstSubject(hs, k) ==> IsFirstSubject(hs[1..], k - 1);
      r
  }

  // ---------------------------------------------------------------------
  // _get_html_and_text

  /** The decoded body of a part: `None` when it has no data or when
      `_b64url_to_bytes` raises. `utf8` stands for
      `bytes.decode("utf-8", errors="ignore")`. */
  function BodyText(p: Part, utf8: seq<byte> -> string): Option<string>
  {
    if p.data == [] then None
    else match B64UrlToBytes(p.data)
      case Err(_) => None
      case Ok(b) => Some(utf8(b))
  }

  predicate HasBody(p: Part, mime: string, utf8: seq<byte> -> string)
  {
    p.mimeType == mime && BodyText(p, utf8).Some?
  }

  /** The body of the first part of type `mime` in `ps` that has one. */
  function FirstBody(ps: seq<Part>, mime: string, utf8: seq<byte> -> string): (r: Option<string>)
    ensures r.None? <==> forall i :: 0 <= i < |ps| ==> !HasBody(ps[i], mime, utf8)
    ensures r.Some? ==>
              exists i :: 0 <= i < |ps| && HasBody(ps[i], mime, utf8) && r == BodyText(ps[i], utf8)
                && forall j :: 0 <= j < i ==> !HasBody(ps[j], mime, utf8)
  {
    if ps == [] then None
    else
      var earlier := FirstBody(ps[..|ps| - 1], mime, utf8);
      assert forall j :: 0 <= j < |ps| - 1 ==> ps[..|ps| - 1][j] == ps[j];
      if earlier.Some? then earlier
      else if HasBody(ps[|ps| - 1], mime, utf8) then BodyText(ps[|ps| - 1], utf8)
      else None
  }

  /** `_get_html_and_text(payload)`: the first HTML body and the first
      plain-text body, in walk order. */
  method GetHtmlAndText(payload: Part, utf8: seq<byte> -> string)
    returns (html: Option<string>, text: Option<string>)
    ensures html == FirstBody(WalkStack([payload]), "text/html", utf8)
    ensures text == FirstBody(WalkStack([payload]), "text/plain", utf8)
  {
    var parts := Walk(payload);
    html, text := None, None;
    var i := 0;
    assert parts[..0] == [];
    while i < |parts|
      invariant 0 <= i <= |parts|
      invariant html == FirstBody(parts[..i], "text/html", utf8)
      invariant text == FirstBody(parts[..i], "text/plain", utf8)
    {
      var part := parts[i];
      FirstBodyStep(parts, i, "text/html", utf8);
      FirstBodyStep(parts, i, "text/plain", utf8);
      var body := BodyText(part, utf8);
      if body.Some? {
        if part.mimeType == "text/html" && html.None? {
          html := body;
        } else if part.mimeType == "text/plain" && text.None? {
          text := body;
        }
      }
      i := i + 1;
    }
    assert parts[..i] == parts;
  }

  lemma FirstBodyStep(ps: seq<Part>, i: nat, mime: string, utf8: seq<byte> -> string)
    requires i < |ps|
    ensures FirstBody(ps[..i + 1], mime, utf8) ==
            if FirstBody(ps[..i], mime, utf8).Some? then FirstBody(ps[..i], mime, utf8)
            else if HasBody(ps[i], mime, utf8) then BodyText(ps[i], utf8)
            else None
  {
    assert ps[..i + 1][..i] == ps[..i];
  }

  /** A body is found exactly when some part of the tree of that type has
      data that decodes; which one is the walk's business. */
  lemma BodyFoundIffSomePartHasOne(payload: Part, mime: string, utf8: seq<byte> -> string)
    ensures FirstBody(WalkStack([payload]), mime, utf8).Some?
        <==> exists q :: q in Nodes(payload) && HasBody(q, mime, utf8)
  {
    var w := WalkStack([payload]);
    WalkVisitsEachNodeOnce(payload);
    if FirstBody(w, mime, utf8).Some? {
      var i :| 0 <= i < |w| && HasBody(w[i], mime, utf8);
      assert w[i] in multiset(w);
    }
    if exists q :: q in Nodes(payload) && HasBody(q, mime, utf8) {
      var q :| q in Nodes(payload) && HasBody(q, mime, utf8);
      assert q in multiset(w);
      var i :| 0 <= i < |w| && w[i] == q;
    }
  }
}
