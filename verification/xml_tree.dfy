/**
 TinyXml and TinyXmlNode (Tiny/Xml): start, data and end events of the XML parser build
 a tree of nodes through parent pointers.

 The nodes stand in `nodes` in the order in which they were made; a pointer to a node is
 its index. A node without text has the empty text.
 */
module XmlTree {
  import opened Wrappers

  const FIELD_LEN: nat := 128

  // What strncpy keeps in a field of 128 characters.
  function Field(s: string): string {
    if |s| <= FIELD_LEN then s else s[..FIELD_LEN]
  }

  // ---- str_split ----

  // strstr: the first place of c in s, or |s|.
  function Search(s: string, c: string): (i: nat)
    ensures i <= |s| && (i < |s| ==> i + |c| <= |s|)
  {
    if s == [] || c <= s then 0 else 1 + Search(s[1..], c)
  }

  // At most n parts, each cut to a field; what follows the last one is dropped.
  function Split(s: string, c: string, n: nat): (parts: seq<string>)
    requires n > 0 && c != []
    ensures 1 <= |parts| <= n
    decreases n
  {
    var i := Search(s, c);
    [Field(s[..i])] + if n == 1 || i == |s| then [] else Split(s[i + |c|..], c, n - 1)
  }

  lemma {:induction false} SearchMeans(s: string, c: string)
    requires c != []
    ensures Search(s, c) < |s| ==> c <= s[Search(s, c)..]
    ensures forall j :: 0 <= j < Search(s, c) ==> !(c <= s[j..])
  {
    if s != [] && !(c <= s) {
      SearchMeans(s[1..], c);
      var i := Search(s[1..], c);
      assert i < |s| - 1 ==> s[1..][i..] == s[1 + i..];
      forall j | 0 <= j < 1 + i
        ensures !(c <= s[j..])
      {
        assert s[0..] == s;
        assert j > 0 ==> s[1..][j - 1..] == s[j..];
      }
    }
  }

  lemma {:induction false} SearchIs(s: string, c: string, i: nat)
    requires c != [] && i <= |s|
    requires i < |s| ==> c <= s[i..]
    requires forall j :: 0 <= j < i ==> !(c <= s[j..])
    ensures Search(s, c) == i
  {
    assert s[0..] == s;
    if i > 0 {
      assert !(c <= s[0..]);
      assert i < |s| ==> s[1..][i - 1..] == s[i..];
      forall j | 0 <= j < i - 1
        ensures !(c <= s[1..][j..])
      {
        assert s[1..][j..] == s[j + 1..];
      }
      SearchIs(s[1..], c, i - 1);
    }
  }

  method StrStr(s: string, c: string) returns (i: nat)
    requires c != []
    ensures i == Search(s, c)
  {
    i := 0;
    while i < |s| && !(c <= s[i..])
      invariant i <= |s|
      invariant forall j :: 0 <= j < i ==> !(c <= s[j..])
    {
      i := i + 1;
    }
    SearchIs(s, c, i);
  }

  lemma SplitNext(done: seq<string>, s: string, c: string, n: nat)
    requires n > 0 && c != []
    ensures var i := Search(s, c);
            done + Split(s, c, n) ==
            if n == 1 || i == |s| then done + [Field(s[..i])]
            else (done + [Field(s[..i])]) + Split(s[i + |c|..], c, n - 1)
  {
    hide Search, Field;
    var head := [Field(s[..Search(s, c)])];
    if n > 1 && Search(s, c) < |s| {
      var rest := Split(s[Search(s, c) + |c|..], c, n - 1);
      assert Split(s, c, n) == head + rest;
      hide Split;
      assert done + (head + rest) == (done + head) + rest;
    } else {
      assert Split(s, c, n) == head;
    }
  }

  method StrSplit(s: string, c: string, groupCount: nat) returns (group: seq<string>)
    requires groupCount > 0 && c != []
    ensures group == Split(s, c, groupCount)
  {
    hide Split, Search;
    group := [];
    var p1 := s;
    while true
      invariant |group| < groupCount
      invariant group + Split(p1, c, groupCount - |group|) == Split(s, c, groupCount)
      decreases groupCount - |group|
    {
      var p2 := StrStr(p1, c);
      SplitNext(group, p1, c, groupCount - |group|);
      group := group + [Field(p1[..p2])];
      if |group| >= groupCount || p2 == |p1| {
        return;
      }
      p1 := p1[p2 + |c|..];
    }
  }

  // The prefix and the name of a tag.
  function Prefix(name: string): string {
    var parts := Split(name, ":", 2);
    if |parts| == 2 then parts[0] else ""
  }

  function LocalName(name: string): string {
    var parts := Split(name, ":", 2);
    if |parts| == 2 then parts[1] else Field(name)
  }

  /** A name without a colon has no prefix; one with colons is cut at the first, and a third part is dropped. */
  lemma NameParts(prefix: string, name: string, rest: string)
    requires ':' !in prefix && ':' !in name && (rest == "" || rest[0] == ':')
    ensures Prefix(name) == "" && LocalName(name) == Field(name)
    ensures Prefix(prefix + ":" + name + rest) == Field(prefix)
    ensures LocalName(prefix + ":" + name + rest) == Field(name)
  {
    hide Search, Field, Split;
    PlainName(name);
    FirstPart(prefix, name + rest);
    LastPart(name, rest);
    assert prefix + ":" + name + rest == prefix + (":" + (name + rest));
  }

  lemma PlainName(name: string)
    requires ':' !in name
    ensures Split(name, ":", 2) == [Field(name)]
  {
    hide Search, Field, Split;
    NoColon(name, "");
    assert name + "" == name && name[..|name|] == name;
    SplitNext([], name, ":", 2);
    assert [] + Split(name, ":", 2) == Split(name, ":", 2) && [] + [Field(name)] == [Field(name)];
  }

  lemma FirstPart(part: string, rest: string)
    requires ':' !in part
    ensures Split(part + (":" + rest), ":", 2) == [Field(part)] + Split(rest, ":", 1)
  {
    hide Search, Field, Split;
    var s := part + (":" + rest);
    NoColon(part, ":" + rest);
    SplitNext([], s, ":", 2);
    assert s[..|part|] == part && s[|part| + 1..] == rest;
    assert [] + Split(s, ":", 2) == Split(s, ":", 2) && [] + [Field(part)] == [Field(part)];
  }

  lemma LastPart(part: string, rest: string)
    requires ':' !in part && (rest == "" || rest[0] == ':')
    ensures Split(part + rest, ":", 1) == [Field(part)]
  {
    hide Search, Field, Split;
    var s := part + rest;
    NoColon(part, rest);
    SplitNext([], s, ":", 1);
    assert s[..|part|] == part;
    assert [] + Split(s, ":", 1) == Split(s, ":", 1) && [] + [Field(part)] == [Field(part)];
  }

  lemma NoColon(name: string, rest: string)
    requires ':' !in name && (rest == "" || rest[0] == ':')
    ensures Search(name + rest, ":") == |name|
  {
    var s := name + rest;
    forall j | 0 <= j < |name|
      ensures !(":" <= s[j..])
    {
      assert s[j..][0] == name[j];
    }
    assert rest != "" ==> s[|name|..] == rest;
    SearchIs(s, ":", |name|);
  }

  // ---- nodes and events ----

  datatype Attr = Attr(name: string, value: string)

  datatype Node = Node(
    prefix: string,
    name: string,
    attributes: seq<Attr>,
    children: seq<nat>,
    parent: Option<nat>,
    depth: nat,
    text: string)

  datatype Event = Start(name: string, atts: seq<Attr>) | Data(chunk: string) | End

  datatype State = State(nodes: seq<Node>, node: Option<nat>, skip: bool)

  predicate IsSpace(c: char) {
    c == ' ' || c == '\r' || c == '\n' || c == '\t'
  }

  // Without the white space it begins with.
  function Strip(s: string): string {
    if s != [] && IsSpace(s[0]) then Strip(s[1..]) else s
  }

  predicate IsBlankCode(n: int) {
    n == 9 || n == 10 || n == 13 || n == 32
  }

  /** What is stripped is blanks, tabs and ends of lines only, and all of them up to another character. */
  lemma {:induction false} StripIs(s: string) returns (k: nat)
    ensures k <= |s| && Strip(s) == s[k..]
    ensures (forall i :: 0 <= i < k ==> IsBlankCode(s[i] as int)) && (k < |s| ==> !IsBlankCode(s[k] as int))
  {
    k := 0;
    if s != [] && IsSpace(s[0]) {
      var n := StripIs(s[1..]);
      k := n + 1;
    }
  }

  function StoredAttrs(atts: seq<Attr>): (r: seq<Attr>)
    ensures |r| == |atts|
  {
    seq(|atts|, i requires 0 <= i < |atts| => Attr(Field(atts[i].name), Field(atts[i].value)))
  }

  predicate Valid(s: State) {
    && (s.node.Some? ==> s.node.value < |s.nodes|)
    && Upward(s.nodes, 0)
  }

  // In nodes laid out from index `at` on, every parent stands before its child.
  predicate Upward(nodes: seq<Node>, at: nat) {
    forall i :: 0 <= i < |nodes| && nodes[i].parent.Some? ==> nodes[i].parent.value < at + i
  }

  lemma UpwardSum(a: seq<Node>, b: seq<Node>, at: nat)
    requires Upward(a, at) && Upward(b, at + |a|)
    ensures Upward(a + b, at)
  {
  }

  // Character data and end tags only come inside an element.
  predicate Ready(s: State, e: Event) {
    Valid(s) && (e.Start? || s.node.Some?)
  }

  function Linked(s: State, child: nat): seq<Node>
    requires Valid(s)
  {
    if s.node.None? then s.nodes
    else
      var p := s.node.value;
      s.nodes[p := s.nodes[p].(children := s.nodes[p].children + [child])]
  }

  function DepthBelow(s: State): nat
    requires Valid(s)
  {
    if s.node.None? then 0 else s.nodes[s.node.value].depth + 1
  }

  function Step(s: State, e: Event): (r: State)
    requires Ready(s, e)
    ensures Valid(r) && r.node.Some? && |r.nodes| == |s.nodes| + if e.Start? then 1 else 0
  {
    match e
    case Start(name, atts) =>
      var k := |s.nodes|;
      var node := Node(Prefix(name), LocalName(name), StoredAttrs(atts), [], s.node, DepthBelow(s), "");
      State(Linked(s, k) + [node], Some(k), true)
    case Data(chunk) =>
      var p := s.node.value;
      var said := if s.skip then Strip(chunk) else chunk;
      if s.skip && said == "" then s
      else s.(nodes := s.nodes[p := s.nodes[p].(text := s.nodes[p].text + said)], skip := false)
    case End =>
      var up := s.nodes[s.node.value].parent;
      s.(node := if up.Some? then up else s.node, skip := true)
  }

  class TinyXml {
    var nodes: seq<Node>
    var node: Option<nat>
    var skip: bool

    ghost function Snapshot(): State
      reads this
    {
      State(nodes, node, skip)
    }

    constructor ()
      ensures Snapshot() == State([], None, false)
    {
      nodes, node, skip := [], None, false;
    }

    method AddAttributes(made: Node, atts: seq<Attr>) returns (r: Node)
      ensures r == made.(attributes := made.attributes + StoredAttrs(atts))
    {
      r := made;
      var i := 0;
      while i < |atts|
        invariant i <= |atts|
        invariant r == made.(attributes := made.attributes + StoredAttrs(atts[..i]))
      {
        assert StoredAttrs(atts[..i + 1]) ==
               StoredAttrs(atts[..i]) + [Attr(Field(atts[i].name), Field(atts[i].value))];
        r := r.(attributes := r.attributes + [Attr(Field(atts[i].name), Field(atts[i].value))]);
        i := i + 1;
      }
      assert atts[..i] == atts;
    }

    // TinyXmlNode_AddChild(node, child).
    method AddChild(child: nat)
      requires Valid(Snapshot()) && node.Some? && node.value < child < |nodes|
      modifies this`nodes
      ensures var p := old(nodes[node.value]);
              nodes == old(nodes)[child := old(nodes[child]).(depth := p.depth + 1, parent := node)]
                                 [node.value := p.(children := p.children + [child])]
    {
      var p := node.value;
      nodes := nodes[child := nodes[child].(depth := nodes[p].depth + 1, parent := Some(p))];
      nodes := nodes[p := nodes[p].(children := nodes[p].children + [child])];
    }

    method SetText(said: string)
      requires Valid(Snapshot()) && node.Some?
      modifies this`nodes
      ensures nodes == old(nodes)[node.value := old(nodes[node.value]).(text := old(nodes[node.value]).text + said)]
    {
      var p := node.value;
      nodes := nodes[p := nodes[p].(text := nodes[p].text + said)];
    }

    // A node with the parts of its name.
    method Named(name: string) returns (made: Node)
      ensures made == Node(Prefix(name), LocalName(name), [], [], None, 0, "")
    {
      made := Node("", "", [], [], None, 0, "");
      var group := StrSplit(name, ":", 2);
      if |group| == 1 {
        made := made.(name := Field(name));
      } else {
        assert Field(group[0]) == group[0] && Field(group[1]) == group[1];
        made := made.(prefix := Field(group[0]), name := Field(group[1]));
      }
    }

    method OnStart(name: string, atts: seq<Attr>)
      requires Ready(Snapshot(), Start(name, atts))
      modifies this
      ensures Snapshot() == Step(old(Snapshot()), Start(name, atts))
    {
      var made := Named(name);
      made := AddAttributes(made, atts);
      assert [] + StoredAttrs(atts) == StoredAttrs(atts);
      hide Prefix, LocalName, StoredAttrs;
      var k := |nodes|;
      nodes := nodes + [made];
      if node != None {
        AddChild(k);
      }
      assert nodes == Step(old(Snapshot()), Start(name, atts)).nodes;
      node := Some(k);
      skip := true;
    }

    method OnEnd()
      requires Ready(Snapshot(), End)
      modifies this
      ensures Snapshot() == Step(old(Snapshot()), End)
    {
      if nodes[node.value].parent != None {
        node := nodes[node.value].parent;
      }
      skip := true;
    }

    method OnData(chunk: string)
      requires Ready(Snapshot(), Data(chunk))
      modifies this
      ensures Snapshot() == Step(old(Snapshot()), Data(chunk))
    {
      var i := 0;
      assert chunk[0..] == chunk;
      if skip {
        while i < |chunk|
          invariant i <= |chunk| && Strip(chunk[i..]) == Strip(chunk)
        {
          assert chunk[i..][1..] == chunk[i + 1..];
          if IsSpace(chunk[i]) {
            i := i + 1;
            continue;
          }
          break;
        }
        if i == |chunk| {
          return;
        }
      }
      skip := false;
      SetText(chunk[i..]);
    }
  }

  // ---- element trees and their events ----

  // A text run is the sequence of the chunks it comes in.
  datatype Tree = Elem(name: string, atts: seq<Attr>, first: seq<string>, kids: Kids)

  // The child elements, each followed by a text run.
  datatype Kids = NoKids | Then(before: Kids, tree: Tree, after: seq<string>)

  function DataEvents(run: seq<string>): seq<Event> {
    seq(|run|, i requires 0 <= i < |run| => Data(run[i]))
  }

  function Events(t: Tree): seq<Event> {
    [Start(t.name, t.atts)] + DataEvents(t.first) + KidsEvents(t.kids) + [End]
  }

  function KidsEvents(kids: Kids): seq<Event> {
    match kids
    case NoKids => []
    case Then(before, tree, after) => KidsEvents(before) + Events(tree) + DataEvents(after)
  }

  ghost predicate AllReady(s: State, es: seq<Event>)
    decreases |es|
  {
    es != [] ==> AllReady(s, es[..|es| - 1]) && Ready(Play(s, es[..|es| - 1]), es[|es| - 1])
  }

  function Play(s: State, es: seq<Event>): (r: State) {
    if es == [] then s
    else
      var was := Play(s, es[..|es| - 1]);
      if Ready(was, es[|es| - 1]) then Step(was, es[|es| - 1]) else was
  }

  lemma {:induction false} PlaySum(s: State, a: seq<Event>, b: seq<Event>)
    ensures Play(s, a + b) == Play(Play(s, a), b)
    ensures AllReady(s, a) && AllReady(Play(s, a), b) ==> AllReady(s, a + b)
  {
    if b == [] {
      assert a + b == a;
    } else {
      assert (a + b)[..|a + b| - 1] == a + b[..|b| - 1];
      PlaySum(s, a, b[..|b| - 1]);
    }
  }

  lemma PlayOne(s: State, e: Event)
    requires Ready(s, e)
    ensures Play(s, [e]) == Step(s, e) && AllReady(s, [e])
  {
    assert [e][..0] == [];
  }

  function Flat(run: seq<string>): string {
    if run == [] then "" else Flat(run[..|run| - 1]) + run[|run| - 1]
  }

  // The text of a node: its runs, each without the white space it begins with.
  function TextOf(first: seq<string>, kids: Kids): string {
    match kids
    case NoKids => Strip(Flat(first))
    case Then(before, _, after) => TextOf(first, before) + Strip(Flat(after))
  }

  function LastRun(first: seq<string>, kids: Kids): seq<string> {
    if kids.NoKids? then first else kids.after
  }

  function Size(t: Tree): nat {
    1 + KidsSize(t.kids)
  }

  function KidsSize(kids: Kids): nat {
    match kids
    case NoKids => 0
    case Then(before, tree, _) => KidsSize(before) + Size(tree)
  }

  // The tree laid out from index k on, each node before its children.
  function Layout(t: Tree, k: nat, parent: Option<nat>, depth: nat): (r: seq<Node>)
    ensures |r| == Size(t)
  {
    [TopNode(t, t.kids, k, parent, depth)] + KidsLayout(t.kids, k + 1, k, depth + 1)
  }

  function TopNode(t: Tree, kids: Kids, k: nat, parent: Option<nat>, depth: nat): Node {
    Node(Prefix(t.name), LocalName(t.name), StoredAttrs(t.atts), Places(kids, k + 1), parent, depth,
         TextOf(t.first, kids))
  }

  function KidsLayout(kids: Kids, at: nat, parent: nat, depth: nat): (r: seq<Node>)
    ensures |r| == KidsSize(kids)
  {
    match kids
    case NoKids => []
    case Then(before, tree, _) =>
      KidsLayout(before, at, parent, depth) + Layout(tree, at + KidsSize(before), Some(parent), depth)
  }

  // The indices of the children, the first of which is at index `at`.
  function Places(kids: Kids, at: nat): seq<nat> {
    match kids
    case NoKids => []
    case Then(before, _, _) => Places(before, at) + [at + KidsSize(before)]
  }

  lemma {:induction false} StripSum(a: string, b: string)
    ensures Strip(a + b) == if Strip(a) == "" then Strip(b) else Strip(a) + b
  {
    if a == "" {
      assert a + b == b;
    } else if IsSpace(a[0]) {
      assert (a + b)[1..] == a[1..] + b;
      StripSum(a[1..], b);
    }
  }

  /** A text run adds itself, stripped as a whole, however it is cut into chunks. */
  lemma {:induction false} RunAdds(s: State, run: seq<string>)
    requires Valid(s) && s.node.Some? && s.skip
    ensures AllReady(s, DataEvents(run))
    ensures var said := Strip(Flat(run)); var p := s.node.value;
            Play(s, DataEvents(run)) ==
            State(s.nodes[p := s.nodes[p].(text := s.nodes[p].text + said)], s.node, said == "")
  {
    var p := s.node.value;
    if run == [] {
      assert s.nodes[p].text + "" == s.nodes[p].text;
      assert s.nodes[p := s.nodes[p]] == s.nodes;
    } else {
      var l := |run| - 1;
      assert DataEvents(run)[..l] == DataEvents(run[..l]);
      RunAdds(s, run[..l]);
      assert Flat(run) == Flat(run[..l]) + run[l];
      hide Strip, Flat, Upward;
      StripSum(Flat(run[..l]), run[l]);
      ChunkAdds(s.nodes, s.node, Strip(Flat(run[..l])), run[l]);
    }
  }

  // The next chunk, when the run so far, stripped, is `was`.
  lemma ChunkAdds(nodes: seq<Node>, node: Option<nat>, was: string, chunk: string)
    requires Valid(State(nodes, node, true)) && node.Some?
    ensures var p := node.value;
            var t := nodes[p].text;
            var s := State(nodes[p := nodes[p].(text := t + was)], node, was == "");
            var said := if was == "" then Strip(chunk) else was + chunk;
            && Ready(s, Data(chunk))
            && Step(s, Data(chunk)) == State(nodes[p := nodes[p].(text := t + said)], node, said == "")
  {
    var p := node.value;
    var t := nodes[p].text;
    assert t + "" == t && (t + was) + chunk == t + (was + chunk);
    assert nodes[p := nodes[p].(text := t)] == nodes;
  }

  // ---- replaying a tree ----

  function Begun(s: State, t: Tree): State
    requires Valid(s)
  {
    Step(s, Start(t.name, t.atts))
  }

  // The state once the start tag, the first run and the children `kids` of t have come.
  function Within(s: State, t: Tree, kids: Kids): State
    requires Valid(s)
  {
    var k, depth := |s.nodes|, DepthBelow(s);
    State(Linked(s, k) + ([TopNode(t, kids, k, s.node, depth)] + KidsLayout(kids, k + 1, k, depth + 1)),
          Some(k), Strip(Flat(LastRun(t.first, kids))) == "")
  }

  // The state once all of t has come.
  function Built(s: State, t: Tree): State
    requires Valid(s)
  {
    var k := |s.nodes|;
    State(Linked(s, k) + Layout(t, k, s.node, DepthBelow(s)), if s.node.Some? then s.node else Some(k), true)
  }

  lemma {:induction false} LayoutUpward(t: Tree, k: nat, parent: Option<nat>, depth: nat)
    requires parent.Some? ==> parent.value < k
    ensures Upward(Layout(t, k, parent, depth), k)
    decreases t, 1
  {
    KidsLayoutUpward(t.kids, k + 1, k, depth + 1);
    UpwardSum([TopNode(t, t.kids, k, parent, depth)], KidsLayout(t.kids, k + 1, k, depth + 1), k);
  }

  lemma {:induction false} KidsLayoutUpward(kids: Kids, at: nat, parent: nat, depth: nat)
    requires parent < at
    ensures Upward(KidsLayout(kids, at, parent, depth), at)
    decreases kids, 0
  {
    if kids.Then? {
      var mid := at + KidsSize(kids.before);
      KidsLayoutUpward(kids.before, at, parent, depth);
      LayoutUpward(kids.tree, mid, Some(parent), depth);
      UpwardSum(KidsLayout(kids.before, at, parent, depth), Layout(kids.tree, mid, Some(parent), depth), at);
    }
  }

  lemma LinkedUpward(s: State, child: nat)
    requires Valid(s)
    ensures Upward(Linked(s, child), 0) && |Linked(s, child)| == |s.nodes|
  {
  }

  lemma WithinValid(s: State, t: Tree, kids: Kids)
    requires Valid(s)
    ensures Valid(Within(s, t, kids))
  {
    var k, d := |s.nodes|, DepthBelow(s);
    LinkedUpward(s, k);
    KidsLayoutUpward(kids, k + 1, k, d + 1);
    assert Upward([TopNode(t, kids, k, s.node, d)], k);
    hide Upward, KidsLayout, Linked;
    UpwardSum([TopNode(t, kids, k, s.node, d)], KidsLayout(kids, k + 1, k, d + 1), k);
    UpwardSum(Linked(s, k), [TopNode(t, kids, k, s.node, d)] + KidsLayout(kids, k + 1, k, d + 1), 0);
  }

  lemma BuiltValid(s: State, t: Tree)
    requires Valid(s)
    ensures Valid(Built(s, t))
  {
    LinkedUpward(s, |s.nodes|);
    LayoutUpward(t, |s.nodes|, s.node, DepthBelow(s));
    hide Upward, Layout, Linked;
    UpwardSum(Linked(s, |s.nodes|), Layout(t, |s.nodes|, s.node, DepthBelow(s)), 0);
  }

  // The first run follows the start tag.
  lemma FirstRun(s: State, t: Tree)
    requires Valid(s)
    ensures AllReady(s, [Start(t.name, t.atts)] + DataEvents(t.first))
    ensures Play(s, [Start(t.name, t.atts)] + DataEvents(t.first)) == Within(s, t, NoKids)
  {
    hide Play, AllReady, Valid;
    PlayOne(s, Start(t.name, t.atts));
    PlaySum(s, [Start(t.name, t.atts)], DataEvents(t.first));
    RunAdds(Begun(s, t), t.first);
    var k := |s.nodes|;
    assert "" + Strip(Flat(t.first)) == Strip(Flat(t.first));
    var begun := Begun(s, t).nodes;
    assert begun[k := begun[k].(text := begun[k].text + Strip(Flat(t.first)))] == Within(s, t, NoKids).nodes;
  }

  // One more child and the run after it.
  lemma OneKid(s: State, t: Tree, kids: Kids)
    requires Valid(s) && kids.Then?
    requires AllReady(Within(s, t, kids.before), Events(kids.tree))
    requires Valid(Within(s, t, kids.before))
    requires Play(Within(s, t, kids.before), Events(kids.tree)) == Built(Within(s, t, kids.before), kids.tree)
    ensures AllReady(Within(s, t, kids.before), Events(kids.tree) + DataEvents(kids.after))
    ensures Play(Within(s, t, kids.before), Events(kids.tree) + DataEvents(kids.after)) == Within(s, t, kids)
  {
    var w := Within(s, t, kids.before);
    var b := Built(w, kids.tree);
    BuiltValid(w, kids.tree);
    PlaySum(w, Events(kids.tree), DataEvents(kids.after));
    RunAdds(b, kids.after);
    hide Play, AllReady, Strip, Flat;
    KidGrows(s, t, kids);
  }

  lemma LinkedAt(s: State, child: nat)
    requires Valid(s) && s.node.Some?
    ensures var p := s.node.value;
            Linked(s, child) == s.nodes[p := s.nodes[p].(children := s.nodes[p].children + [child])]
  {
  }

  lemma KidsParts(kids: Kids, at: nat, parent: nat, depth: nat)
    requires kids.Then?
    ensures KidsLayout(kids, at, parent, depth) ==
            KidsLayout(kids.before, at, parent, depth)
            + Layout(kids.tree, at + KidsSize(kids.before), Some(parent), depth)
    ensures KidsSize(kids) == KidsSize(kids.before) + Size(kids.tree)
  {
    hide Layout, Size;
  }

  // A tree built below the current node is linked to it and laid out behind all nodes.
  lemma BuiltBelow(w: State, k: nat, tree: Tree)
    requires Valid(w) && w.node == Some(k)
    ensures k < |w.nodes|
    ensures var b := Built(w, tree);
            var grown := w.nodes[k].(children := w.nodes[k].children + [|w.nodes|]);
            && b.node == w.node && b.skip
            && b.nodes == w.nodes[k := grown] + Layout(tree, |w.nodes|, w.node, w.nodes[k].depth + 1)
  {
    hide Layout, Upward;
    LinkedAt(w, |w.nodes|);
  }

  // One more child adds its place and the run behind it to the node.
  lemma TopGrows(t: Tree, kids: Kids, k: nat, parent: Option<nat>, depth: nat)
    requires kids.Then?
    ensures var head := TopNode(t, kids.before, k, parent, depth);
            TopNode(t, kids, k, parent, depth) ==
            head.(children := head.children + [k + 1 + KidsSize(kids.before)],
                  text := head.text + Strip(Flat(kids.after)))
  {
    hide Strip, Flat, Prefix, LocalName, StoredAttrs;
  }

  lemma WithinParts(s: State, t: Tree, kids: Kids)
    requires Valid(s)
    ensures var k, d := |s.nodes|, DepthBelow(s);
            && |Linked(s, k)| == k
            && Within(s, t, kids).nodes ==
               Linked(s, k) + ([TopNode(t, kids, k, s.node, d)] + KidsLayout(kids, k + 1, k, d + 1))
            && Within(s, t, kids).node == Some(k)
  {
    hide TopNode, KidsLayout, Valid, DepthBelow, Linked, Strip, Flat;
    LinkedUpward(s, |s.nodes|);
  }

  // What one more child changes: the node itself, and its layout at the end.
  lemma WithinGrows(s: State, t: Tree, kids: Kids)
    requires Valid(s) && kids.Then?
    ensures var w, k, d := Within(s, t, kids.before), |s.nodes|, DepthBelow(s);
            && k < |w.nodes| == k + 1 + KidsSize(kids.before)
            && w.nodes[k] == TopNode(t, kids.before, k, s.node, d)
            && Within(s, t, kids).nodes ==
               w.nodes[k := TopNode(t, kids, k, s.node, d)] + Layout(kids.tree, |w.nodes|, Some(k), d + 1)
  {
    hide *;
    var k, d := |s.nodes|, DepthBelow(s);
    WithinParts(s, t, kids.before);
    WithinParts(s, t, kids);
    KidsParts(kids, k + 1, k, d + 1);
    Replaced(Linked(s, k), TopNode(t, kids.before, k, s.node, d), TopNode(t, kids, k, s.node, d),
             KidsLayout(kids.before, k + 1, k, d + 1),
             Layout(kids.tree, k + 1 + KidsSize(kids.before), Some(k), d + 1));
  }

  // Node |front| is replaced and `more` appended.
  lemma Replaced(front: seq<Node>, a: Node, b: Node, rest: seq<Node>, more: seq<Node>)
    ensures |front + ([a] + rest)| == |front| + 1 + |rest| && (front + ([a] + rest))[|front|] == a
    ensures (front + ([a] + rest))[|front| := b] + more == front + ([b] + (rest + more))
  {
  }

  // Node k grows twice, the second time by text, after `more` was appended.
  lemma GrownTwice(nodes: seq<Node>, k: nat, child: nat, after: string, more: seq<Node>, built: seq<Node>)
    requires k < |nodes|
    requires built == nodes[k := nodes[k].(children := nodes[k].children + [child])] + more
    ensures k < |built|
    ensures built[k := built[k].(text := built[k].text + after)] ==
            nodes[k := nodes[k].(children := nodes[k].children + [child], text := nodes[k].text + after)] + more
  {
  }

  // A tree built below node k, and a run after it.
  lemma GrowsBy(w: State, k: nat, tree: Tree, top: Node, after: string)
    requires Valid(w) && w.node == Some(k) && k < |w.nodes|
    requires top == w.nodes[k].(children := w.nodes[k].children + [|w.nodes|], text := w.nodes[k].text + after)
    ensures var b := Built(w, tree);
            && b.node == Some(k) && b.skip && k < |b.nodes|
            && b.nodes[k := b.nodes[k].(text := b.nodes[k].text + after)] ==
               w.nodes[k := top] + Layout(tree, |w.nodes|, Some(k), w.nodes[k].depth + 1)
  {
    hide *;
    BuiltBelow(w, k, tree);
    GrownTwice(w.nodes, k, |w.nodes|, after, Layout(tree, |w.nodes|, Some(k), w.nodes[k].depth + 1), Built(w, tree).nodes);
  }

  lemma KidGrows(s: State, t: Tree, kids: Kids)
    requires Valid(s) && kids.Then? && Valid(Within(s, t, kids.before))
    ensures var b := Built(Within(s, t, kids.before), kids.tree);
            var k := |s.nodes|;
            b.node == Some(k) && b.skip && k < |b.nodes| &&
            b.nodes[k := b.nodes[k].(text := b.nodes[k].text + Strip(Flat(kids.after)))] == Within(s, t, kids).nodes
  {
    var k, d := |s.nodes|, DepthBelow(s);
    var w := Within(s, t, kids.before);
    assert TopNode(t, kids.before, k, s.node, d).depth == d;
    hide *;
    WithinParts(s, t, kids.before);
    WithinGrows(s, t, kids);
    TopGrows(t, kids, k, s.node, d);
    GrowsBy(w, k, kids.tree, TopNode(t, kids, k, s.node, d), Strip(Flat(kids.after)));
  }

  // The end tag goes back to the parent, and leaves the root current.
  lemma EndTag(s: State, t: Tree)
    requires Valid(s)
    ensures Valid(Within(s, t, t.kids)) && Ready(Within(s, t, t.kids), End)
    ensures Step(Within(s, t, t.kids), End) == Built(s, t)
  {
    WithinValid(s, t, t.kids);
    hide KidsLayout, Valid;
    var w := Within(s, t, t.kids);
    assert w.nodes[|s.nodes|] == TopNode(t, t.kids, |s.nodes|, s.node, DepthBelow(s));
  }

  /** The events of a tree append its layout and leave the parent current, or the root. */
  lemma {:induction false} Replay(s: State, t: Tree)
    requires Valid(s)
    ensures AllReady(s, Events(t)) && Play(s, Events(t)) == Built(s, t)
    decreases t, 1
  {
    hide Play, AllReady, Within, Built, Valid, Step;
    ReplayKids(s, t, t.kids);
    EndTag(s, t);
    PlayOne(Within(s, t, t.kids), End);
    PlaySum(s, [Start(t.name, t.atts)] + DataEvents(t.first) + KidsEvents(t.kids), [End]);
  }

  lemma {:induction false} ReplayKids(s: State, t: Tree, kids: Kids)
    requires Valid(s)
    ensures var es := [Start(t.name, t.atts)] + DataEvents(t.first) + KidsEvents(kids);
            AllReady(s, es) && Play(s, es) == Within(s, t, kids)
    decreases kids, 0
  {
    hide Play, AllReady, Within, Built, Valid, Step;
    var open := [Start(t.name, t.atts)] + DataEvents(t.first);
    if kids.NoKids? {
      FirstRun(s, t);
      assert open + KidsEvents(kids) == open;
    } else {
      ReplayKids(s, t, kids.before);
      WithinValid(s, t, kids.before);
      Replay(Within(s, t, kids.before), kids.tree);
      OneKid(s, t, kids);
      PlaySum(s, open + KidsEvents(kids.before), Events(kids.tree) + DataEvents(kids.after));
      EventsJoin(open, kids);
    }
  }

  lemma EventsJoin(open: seq<Event>, kids: Kids)
    requires kids.Then?
    ensures open + KidsEvents(kids) ==
            (open + KidsEvents(kids.before)) + (Events(kids.tree) + DataEvents(kids.after))
  {
    hide Events, DataEvents;
  }

  // Node k and the nodes below it are the tree t.
  predicate Represents(nodes: seq<Node>, k: nat, parent: Option<nat>, depth: nat, t: Tree)
    decreases t, 1
  {
    && k < |nodes|
    && nodes[k].prefix == Prefix(t.name) && nodes[k].name == LocalName(t.name)
    && nodes[k].attributes == StoredAttrs(t.atts)
    && nodes[k].parent == parent && nodes[k].depth == depth
    && nodes[k].text == TextOf(t.first, t.kids)
    && KidsRepresent(nodes, nodes[k].children, k, depth + 1, t.kids)
  }

  // The nodes `children`, in ascending order and all after k, are the children of k.
  predicate KidsRepresent(nodes: seq<Node>, children: seq<nat>, k: nat, depth: nat, kids: Kids)
    decreases kids, 0
  {
    match kids
    case NoKids => children == []
    case Then(before, tree, _) =>
      && children != []
      && var l := |children| - 1;
      && children[l] > (if l == 0 then k else children[l - 1])
      && Represents(nodes, children[l], Some(k), depth, tree)
      && KidsRepresent(nodes, children[..l], k, depth, before)
  }

  lemma {:induction false} LayoutRepresents(nodes: seq<Node>, k: nat, parent: Option<nat>, depth: nat, t: Tree)
    requires k + Size(t) <= |nodes| && nodes[k..k + Size(t)] == Layout(t, k, parent, depth)
    ensures Represents(nodes, k, parent, depth, t)
    decreases t, 1
  {
    var r := Layout(t, k, parent, depth);
    assert nodes[k] == nodes[k..k + Size(t)][0];
    assert nodes[k + 1..k + Size(t)] == nodes[k..k + Size(t)][1..] == r[1..] == KidsLayout(t.kids, k + 1, k, depth + 1);
    KidsLayoutRepresent(nodes, k + 1, k, depth + 1, t.kids);
  }

  lemma {:induction false} KidsLayoutRepresent(nodes: seq<Node>, at: nat, k: nat, depth: nat, kids: Kids)
    requires k < at && at + KidsSize(kids) <= |nodes|
    requires nodes[at..at + KidsSize(kids)] == KidsLayout(kids, at, k, depth)
    ensures KidsRepresent(nodes, Places(kids, at), k, depth, kids)
    decreases kids, 0
  {
    if kids.Then? {
      var mid := at + KidsSize(kids.before);
      LayoutCut(nodes, at, k, depth, kids);
      PlacesAscend(kids, at);
      hide *;
      KidsLayoutRepresent(nodes, at, k, depth, kids.before);
      LayoutRepresents(nodes, mid, Some(k), depth, kids.tree);
      OneKidMore(nodes, Places(kids, at), k, depth, kids);
    }
  }

  lemma OneKidMore(nodes: seq<Node>, children: seq<nat>, k: nat, depth: nat, kids: Kids)
    requires kids.Then? && children != []
    requires var l := |children| - 1;
             && children[l] > (if l == 0 then k else children[l - 1])
             && Represents(nodes, children[l], Some(k), depth, kids.tree)
             && KidsRepresent(nodes, children[..l], k, depth, kids.before)
    ensures KidsRepresent(nodes, children, k, depth, kids)
  {
    hide Represents;
  }

  lemma {:induction false} PlacesAscend(kids: Kids, at: nat)
    requires kids.Then?
    ensures var p := Places(kids, at);
            var l := |p| - 1;
            && l >= 0 && p[..l] == Places(kids.before, at) && p[l] == at + KidsSize(kids.before)
            && (l > 0 ==> p[l - 1] < p[l])
  {
    if kids.before.Then? {
      PlacesAscend(kids.before, at);
    }
  }

  lemma LayoutCut(nodes: seq<Node>, at: nat, k: nat, depth: nat, kids: Kids)
    requires kids.Then? && at + KidsSize(kids) <= |nodes|
    requires nodes[at..at + KidsSize(kids)] == KidsLayout(kids, at, k, depth)
    ensures var mid := at + KidsSize(kids.before);
            && nodes[at..mid] == KidsLayout(kids.before, at, k, depth)
            && nodes[mid..mid + Size(kids.tree)] == Layout(kids.tree, mid, Some(k), depth)
            && at + KidsSize(kids) == mid + Size(kids.tree)
  {
    hide KidsLayout, Layout, Size, KidsSize;
    KidsParts(kids, at, k, depth);
    var mid := at + KidsSize(kids.before);
    var a, b := KidsLayout(kids.before, at, k, depth), Layout(kids.tree, mid, Some(k), depth);
    var whole := nodes[at..at + KidsSize(kids)];
    assert whole == a + b;
    assert nodes[at..mid] == whole[..|a|];
    assert nodes[mid..mid + |b|] == whole[|a|..];
  }

  /**
   The events of any element tree, however its text runs are cut into chunks, build that
   tree and nothing else, and end with its root current.
   */
  lemma TreeRebuilt(t: Tree)
    ensures var s := State([], None, false);
            var r := Play(s, Events(t));
            && AllReady(s, Events(t))
            && r.node == Some(0) && |r.nodes| == Size(t)
            && Represents(r.nodes, 0, None, 0, t)
  {
    var s := State([], None, false);
    Replay(s, t);
    var r := Built(s, t);
    assert r.nodes == Layout(t, 0, None, 0);
    assert r.nodes[0..0 + Size(t)] == r.nodes;
    LayoutRepresents(r.nodes, 0, None, 0, t);
  }

  // ---- what comes back whole ----

  // The tag that a node stands for.
  function Tag(prefix: string, name: string): string {
    if prefix == "" then name else prefix + ":" + name
  }

  // A name that fits into its fields: at most one colon, not in front, and at most 128 characters on
  // either side of it. With 128 the field holds them all, but no terminator.
  predicate WholeName(name: string) {
    var i := Search(name, ":");
    if i == |name| then |name| <= 128
    else 0 < i <= 128 && ':' !in name[i + 1..] && |name| - i - 1 <= 128
  }

  predicate WholeAttrs(atts: seq<Attr>) {
    forall i :: 0 <= i < |atts| ==> |atts[i].name| <= 128 && |atts[i].value| <= 128
  }

  lemma AttrsComeBack(atts: seq<Attr>)
    ensures StoredAttrs(atts) == atts <==> WholeAttrs(atts)
  {
    if StoredAttrs(atts) == atts {
      assert forall i :: 0 <= i < |atts| ==> atts[i] == Attr(Field(atts[i].name), Field(atts[i].value));
    }
  }

  // A name is its part up to the first colon, its part up to the second one, and the rest.
  lemma NameSplits(name: string) returns (prefix: string, local: string, rest: string)
    requires Search(name, ":") < |name|
    ensures prefix == name[..Search(name, ":")] && name == prefix + ":" + local + rest
    ensures ':' !in prefix && ':' !in local && (rest == "" || rest[0] == ':')
    ensures rest == "" <==> ':' !in name[Search(name, ":") + 1..]
  {
    var i := Search(name, ":");
    var after := name[i + 1..];
    var j := Search(after, ":");
    BeforeColon(name);
    BeforeColon(after);
    prefix, local, rest := name[..i], after[..j], after[j..];
    hide Search;
    assert name[i] == name[i..][0] == ':';
    CutTwice(name, i, j);
    if j < |after| {
      assert after[j] == after[j..][0] == ':';
      assert ':' in after;
    } else {
      assert local == after;
    }
  }

  lemma CutTwice(name: string, i: nat, j: nat)
    requires i < |name| && name[i] == ':' && i + 1 + j <= |name|
    ensures name == name[..i] + ":" + name[i + 1..][..j] + name[i + 1..][j..]
  {
    assert name[i + 1..] == name[i + 1..][..j] + name[i + 1..][j..];
    assert name == name[..i] + ":" + name[i + 1..];
  }

  lemma BeforeColon(s: string)
    ensures ':' !in s[..Search(s, ":")]
    ensures Search(s, ":") < |s| ==> s[Search(s, ":")..][0] == ':'
  {
    SearchMeans(s, ":");
    forall j | 0 <= j < Search(s, ":")
      ensures s[j] != ':'
    {
      assert s[j..][..1] == [s[j]];
    }
  }

  /** A tag's name comes back from its node exactly when it fits into the fields. */
  lemma NameComesBack(name: string)
    ensures Tag(Prefix(name), LocalName(name)) == name <==> WholeName(name)
  {
    var i := Search(name, ":");
    BeforeColon(name);
    hide Prefix, LocalName;
    if i == |name| {
      assert name[..i] == name;
      NameParts("", name, "");
    } else {
      var prefix, local, rest := NameSplits(name);
      NameParts(prefix, local, rest);
      PartsComeBack(prefix, local, rest);
    }
  }

  lemma PartsComeBack(prefix: string, local: string, rest: string)
    ensures Tag(Field(prefix), Field(local)) == prefix + ":" + local + rest
            <==> 0 < |prefix| <= 128 && |local| <= 128 && rest == ""
  {
    var whole, back := prefix + ":" + local + rest, Tag(Field(prefix), Field(local));
    if back == whole {
      assert |back| <= |Field(prefix)| + 1 + |Field(local)|;
    }
  }

  // Every tag and attribute of the tree is found in its nodes as it was written.
  predicate Kept(nodes: seq<Node>, k: nat, t: Tree)
    decreases t, 1
  {
    && k < |nodes|
    && Tag(nodes[k].prefix, nodes[k].name) == t.name && nodes[k].attributes == t.atts
    && KidsKept(nodes, nodes[k].children, t.kids)
  }

  predicate KidsKept(nodes: seq<Node>, children: seq<nat>, kids: Kids)
    decreases kids, 0
  {
    kids.Then? ==>
      && children != []
      && Kept(nodes, children[|children| - 1], kids.tree)
      && KidsKept(nodes, children[..|children| - 1], kids.before)
  }

  predicate WholeTree(t: Tree) {
    WholeName(t.name) && WholeAttrs(t.atts) && WholeKids(t.kids)
  }

  predicate WholeKids(kids: Kids) {
    kids.Then? ==> WholeKids(kids.before) && WholeTree(kids.tree)
  }

  /** In the nodes built for a tree everything is as it was written exactly when all of it fits. */
  lemma {:induction false} KeptExactly(nodes: seq<Node>, k: nat, parent: Option<nat>, depth: nat, t: Tree)
    requires Represents(nodes, k, parent, depth, t)
    ensures Kept(nodes, k, t) <==> WholeTree(t)
    decreases t, 1
  {
    hide Tag, Prefix, LocalName, StoredAttrs, WholeName, WholeAttrs, TextOf;
    NameComesBack(t.name);
    AttrsComeBack(t.atts);
    KidsKeptExactly(nodes, nodes[k].children, k, depth + 1, t.kids);
  }

  lemma {:induction false} KidsKeptExactly(nodes: seq<Node>, children: seq<nat>, k: nat, depth: nat, kids: Kids)
    requires KidsRepresent(nodes, children, k, depth, kids)
    ensures KidsKept(nodes, children, kids) <==> WholeKids(kids)
    decreases kids, 0
  {
    if kids.Then? {
      var l := |children| - 1;
      hide Represents, Kept, WholeTree;
      KeptExactly(nodes, children[l], Some(k), depth, kids.tree);
      KidsKeptExactly(nodes, children[..l], k, depth, kids.before);
    }
  }

  // The same tree with its text runs cut differently.
  predicate SameTree(t: Tree, u: Tree) {
    t.name == u.name && t.atts == u.atts && Flat(t.first) == Flat(u.first) && SameKids(t.kids, u.kids)
  }

  predicate SameKids(a: Kids, b: Kids) {
    match a
    case NoKids => b.NoKids?
    case Then(before, tree, after) =>
      b.Then? && SameKids(before, b.before) && SameTree(tree, b.tree) && Flat(after) == Flat(b.after)
  }

  lemma {:induction false} SameLayout(t: Tree, u: Tree, k: nat, parent: Option<nat>, depth: nat)
    requires SameTree(t, u)
    ensures Layout(t, k, parent, depth) == Layout(u, k, parent, depth)
    decreases t
  {
    SameKidsLayout(t.kids, u.kids, t.first, u.first, k + 1, k, depth + 1);
  }

  lemma {:induction false} SameKidsLayout(a: Kids, b: Kids, f: seq<string>, g: seq<string>, at: nat, parent: nat, depth: nat)
    requires SameKids(a, b) && Flat(f) == Flat(g)
    ensures KidsLayout(a, at, parent, depth) == KidsLayout(b, at, parent, depth)
    ensures KidsSize(a) == KidsSize(b) && Places(a, at) == Places(b, at) && TextOf(f, a) == TextOf(g, b)
    decreases a
  {
    hide Layout, Flat, Strip, SameTree;
    if a.Then? {
      SameKidsLayout(a.before, b.before, f, g, at, parent, depth);
      SameLayout(a.tree, b.tree, at + KidsSize(a.before), Some(parent), depth);
      assert |Layout(a.tree, at + KidsSize(a.before), Some(parent), depth)| == Size(a.tree);
      assert |Layout(b.tree, at + KidsSize(a.before), Some(parent), depth)| == Size(b.tree);
    }
  }

  /** Two parses of one document that differ in the chunks only build equal trees. */
  lemma ChunksDoNotMatter(s: State, t: Tree, u: Tree)
    requires Valid(s) && SameTree(t, u)
    ensures Play(s, Events(t)) == Play(s, Events(u))
  {
    Replay(s, t);
    Replay(s, u);
    SameLayout(t, u, |s.nodes|, s.node, DepthBelow(s));
  }

  /** The handlers called with the events one by one, as the parser calls them. */
  method Deliver(x: TinyXml, es: seq<Event>)
    requires AllReady(x.Snapshot(), es)
    modifies x
    ensures x.Snapshot() == Play(old(x.Snapshot()), es)
  {
    hide Step;
    ghost var s := x.Snapshot();
    var i := 0;
    assert es[..|es|] == es;
    while i < |es|
      invariant i <= |es| && x.Snapshot() == Play(s, es[..i])
    {
      assert es[..i + 1][..i] == es[..i];
      ReadyAt(s, es, i);
      match es[i] {
        case Start(name, atts) => x.OnStart(name, atts);
        case Data(chunk) => x.OnData(chunk);
        case End => x.OnEnd();
      }
      i := i + 1;
    }
  }

  lemma {:induction false} ReadyAt(s: State, es: seq<Event>, i: nat)
    requires AllReady(s, es) && i < |es|
    ensures Ready(Play(s, es[..i]), es[i])
    decreases |es|
  {
    var before := es[..|es| - 1];
    if i < |before| {
      ReadyAt(s, before, i);
      assert before[..i] == es[..i];
    }
  }

  /** TinyXml_Parse of a document: an object that has parsed before refuses, and another one then holds
      the element tree. */
  method Parse(x: TinyXml, t: Tree) returns (ok: bool)
    requires x.node.None? ==> x.nodes == [] && !x.skip
    modifies x
    ensures ok <==> old(x.node).None?
    ensures !ok ==> x.Snapshot() == old(x.Snapshot())
    ensures ok ==> x.node == Some(0) && |x.nodes| == Size(t) && Represents(x.nodes, 0, None, 0, t)
    ensures ok ==> (Kept(x.nodes, 0, t) <==> WholeTree(t))
  {
    hide Play, AllReady, Represents, Size, Kept, WholeTree;
    if x.node.Some? {
      return false;
    }
    TreeRebuilt(t);
    Deliver(x, Events(t));
    KeptExactly(x.nodes, 0, None, 0, t);
    ok := true;
  }
}
