/** Pipelines of optimisation passes: the stack-machine parser, the recursive printer, and the
    operations of the reducer (llvm/utils/pipeline.py). */
module Pipelines {
  import opened Machine

  /** An element is a pair of a kind, or none, and a name or the elements inside: a pass, a manager
      with a kind, or elements without a kind. */
  datatype Elem = Pass(name: string) | Mgr(kind: string, body: Pipeline) | Anon(body: Pipeline)

  type Pipeline = seq<Elem>

  /** Every operation takes an element for a manager if its kind is neither missing nor empty, and
      for a pass otherwise, whatever is inside. */
  predicate IsMgr(e: Elem) {
    e.Mgr? && e.kind != ""
  }

  /** What is appended for an element that is not a manager: the same thing without a kind. */
  function ToPass(e: Elem): Elem
    requires !IsMgr(e)
  {
    if e.Mgr? then Anon(e.body) else e
  }

  predicate Delimiter(c: char) {
    c == ',' || c == '(' || c == ')'
  }

  predicate Token(s: string) {
    s != "" && forall i :: 0 <= i < |s| ==> !Delimiter(s[i])
  }

  /** Whatever is not a manager is a name. */
  predicate Named(p: Pipeline) {
    p == [] || (Named(p[..|p| - 1]) && NamedElem(p[|p| - 1]))
  }

  predicate NamedElem(e: Elem) {
    if IsMgr(e) then Named(e.body) else e.Pass?
  }

  lemma {:induction false} NamedAt(p: Pipeline, i: nat)
    requires Named(p) && i < |p|
    ensures NamedElem(p[i])
  {
    if i < |p| - 1 {
      NamedAt(p[..|p| - 1], i);
    }
  }

  /** All names are nonempty and free of delimiters. */
  predicate Clean(p: Pipeline) {
    p == [] || (Clean(p[..|p| - 1]) && CleanElem(p[|p| - 1]))
  }

  predicate CleanElem(e: Elem) {
    match e
    case Pass(name) => Token(name)
    case Mgr(kind, body) => Token(kind) && Clean(body)
    case Anon(_) => false
  }

  // ----- printing -----

  function ToStr(p: Pipeline): string {
    if p == [] then ""
    else ToStr(p[..|p| - 1]) + (if |p| > 1 then "," else "") + ElemStr(p[|p| - 1])
  }

  function ElemStr(e: Elem): string {
    match e
    case Pass(name) => name
    case Mgr(kind, body) => kind + "(" + ToStr(body) + ")"
    case Anon(body) => "(" + ToStr(body) + ")"
  }

  /** The comma comes after every element but the last. None stands for the exception of adding a
      list to the string. */
  method Print(p: Pipeline) returns (r: Option<string>)
    ensures r == if Named(p) then Some(ToStr(p)) else None
    decreases p
  {
    var res := "";
    var lastIdx := |p| - 1;
    for i := 0 to |p|
      invariant Named(p[..i]) && res == ToStr(p[..i]) + if 0 < i < |p| then "," else ""
    {
      assert p[..i + 1][..i] == p[..i];
      if IsMgr(p[i]) {
        res := res + (p[i].kind + "(");
        var s := Print(p[i].body);
        if s == None {
          NotNamed(p, i);
          return None;
        }
        res := res + s.value;
        res := res + ")";
        assert res == ToStr(p[..i]) + (if 0 < i < |p| then "," else "") + ElemStr(p[i]);
      } else if p[i].Pass? {
        res := res + p[i].name;
      } else {
        NotNamed(p, i);
        return None;
      }
      if i != lastIdx {
        res := res + ",";
      }
    }
    assert p[..|p|] == p && res == ToStr(p);
    return Some(res);
  }

  lemma NotNamed(p: Pipeline, i: nat)
    requires i < |p| && !NamedElem(p[i])
    ensures !Named(p)
  {
    if Named(p) {
      NamedAt(p, i);
    }
  }

  // ----- parsing -----

  /** An open manager: its name, and the list it will be appended to. */
  datatype Frame = Frame(kind: string, curr: Pipeline)

  datatype PState = PState(stack: seq<Frame>, kind: string, curr: Pipeline, tok: string)

  const START: PState := PState([], "", [], "")

  /** End the current token, if there is one. */
  function Flush(st: PState): PState {
    if st.tok != "" then st.(curr := st.curr + [Pass(st.tok)], tok := "") else st
  }

  /** None stands for the exception of a pop from the empty stack. */
  function Feed(st: PState, c: char): Option<PState> {
    if c == ',' then Some(Flush(st))
    else if c == '(' then Some(PState(st.stack + [Frame(st.kind, st.curr)], st.tok, [], ""))
    else if c == ')' then
      var f := Flush(st);
      if f.stack == [] then None
      else
        var top := f.stack[|f.stack| - 1];
        Some(PState(f.stack[..|f.stack| - 1], top.kind, top.curr + [Mgr(f.kind, f.curr)], ""))
    else Some(st.(tok := st.tok + [c]))
  }

  function FeedAll(st: PState, s: string): Option<PState> {
    if s == "" then Some(st)
    else
      var r := FeedAll(st, s[..|s| - 1]);
      if r.Some? then Feed(r.value, s[|s| - 1]) else None
  }

  /** Managers that are still open at the end are dropped. */
  function FromStr(s: string): Option<Pipeline> {
    var r := FeedAll(START, s);
    if r.Some? then Some(Flush(r.value).curr) else None
  }

  method Parse(s: string) returns (r: Option<Pipeline>)
    ensures r == FromStr(s)
  {
    var stack: seq<Frame>, curr: Pipeline, tok, kind := [], [], "", "";
    for i := 0 to |s|
      invariant FeedAll(START, s[..i]) == Some(PState(stack, kind, curr, tok))
    {
      assert s[..i + 1][..i] == s[..i];
      var c := s[i];
      if c == ',' {
        if tok != "" {
          curr := curr + [Pass(tok)];
        }
        tok := "";
      } else if c == '(' {
        stack := stack + [Frame(kind, curr)];
        kind := tok;
        curr := [];
        tok := "";
      } else if c == ')' {
        if tok != "" {
          curr := curr + [Pass(tok)];
        }
        tok := "";
        var oldKind, oldCurr := kind, curr;
        if stack == [] {
          FeedFails(START, s, i + 1);
          return None;
        }
        var top := stack[|stack| - 1];
        stack, kind, curr := stack[..|stack| - 1], top.kind, top.curr;
        curr := curr + [Mgr(oldKind, oldCurr)];
      } else {
        tok := tok + [c];
      }
    }
    assert s[..|s|] == s;
    if tok != "" {
      curr := curr + [Pass(tok)];
    }
    return Some(curr);
  }

  lemma {:induction false} FeedFails(st: PState, s: string, i: nat)
    requires i <= |s| && FeedAll(st, s[..i]) == None
    ensures FeedAll(st, s) == None
  {
    if i < |s| {
      assert s[..|s| - 1][..i] == s[..i];
      FeedFails(st, s[..|s| - 1], i);
    } else {
      assert s[..i] == s;
    }
  }

  lemma {:induction false} FeedConcat(st: PState, a: string, b: string)
    ensures FeedAll(st, a + b) == if FeedAll(st, a).Some? then FeedAll(FeedAll(st, a).value, b) else None
  {
    if b == "" {
      assert a + b == a;
    } else {
      FeedConcat(st, a, b[..|b| - 1]);
      assert (a + b)[..|a + b| - 1] == a + b[..|b| - 1];
    }
  }

  lemma {:induction false} FeedToken(st: PState, s: string)
    requires forall i :: 0 <= i < |s| ==> !Delimiter(s[i])
    ensures FeedAll(st, s) == Some(st.(tok := st.tok + s))
  {
    if s == "" {
      assert st.tok + s == st.tok;
    } else {
      FeedToken(st, s[..|s| - 1]);
      assert st.tok + s == st.tok + s[..|s| - 1] + [s[|s| - 1]];
    }
  }

  lemma FeedChar(st: PState, c: char)
    ensures FeedAll(st, [c]) == Feed(st, c)
  {
    assert [c][..0] == [];
  }

  /** Reading back an element, after a comma or an opening parenthesis. */
  lemma {:induction false} FeedElem(st: PState, e: Elem)
    requires st.tok == "" && CleanElem(e)
    ensures var r := FeedAll(st, ElemStr(e)); r.Some? && Flush(r.value) == st.(curr := st.curr + [e])
    decreases e
  {
    match e
    case Pass(name) =>
      FeedToken(st, name);
      assert st.tok + name == name;
    case Mgr(kind, body) =>
      var st1 := PState(st.stack + [Frame(st.kind, st.curr)], kind, [], "");
      FeedPipeline(st1, body);
      FeedMgr(st, kind, body);
  }

  /** The parentheses of a manager open and close a frame. */
  lemma FeedMgr(st: PState, kind: string, body: Pipeline)
    requires st.tok == "" && Token(kind)
    requires var st1 := PState(st.stack + [Frame(st.kind, st.curr)], kind, [], "");
             var r := FeedAll(st1, ToStr(body)); r.Some? && Flush(r.value) == st1.(curr := st1.curr + body)
    ensures FeedAll(st, ElemStr(Mgr(kind, body))) == Some(st.(curr := st.curr + [Mgr(kind, body)]))
  {
    hide FeedAll, ToStr;
    var st1 := PState(st.stack + [Frame(st.kind, st.curr)], kind, [], "");
    var st2 := FeedAll(st1, ToStr(body)).value;
    FeedToken(st, kind);
    assert st.tok + kind == kind;
    FeedConcat(st, kind, "(");
    FeedChar(st.(tok := kind), '(');
    assert FeedAll(st, kind + "(") == Some(st1);
    FeedConcat(st, kind + "(", ToStr(body));
    FeedConcat(st, kind + "(" + ToStr(body), ")");
    FeedChar(st2, ')');
    assert [] + body == body;
    assert st1.stack[..|st1.stack| - 1] == st.stack;
  }

  lemma {:induction false} FeedPipeline(st: PState, p: Pipeline)
    requires st.tok == "" && Clean(p)
    ensures var r := FeedAll(st, ToStr(p)); r.Some? && Flush(r.value) == st.(curr := st.curr + p)
    decreases p
  {
    if p == [] {
      assert st.curr + p == st.curr;
    } else {
      var q, e := p[..|p| - 1], p[|p| - 1];
      FeedPipeline(st, q);
      var st1 := FeedAll(st, ToStr(q)).value;
      var st2 := st.(curr := st.curr + q);
      assert st.curr + p == st.curr + q + [e];
      FeedElem(st2, e);
      if q == [] {
        assert st.curr + q == st.curr;
        assert ToStr(p) == ElemStr(e);
      } else {
        FeedConcat(st, ToStr(q), ",");
        FeedChar(st1, ',');
        FeedConcat(st, ToStr(q) + ",", ElemStr(e));
      }
    }
  }

  /** Reading back what was printed gives the same pipeline, empty managers included. */
  lemma ReadBack(p: Pipeline)
    requires Clean(p)
    ensures FromStr(ToStr(p)) == Some(p)
  {
    FeedPipeline(START, p);
    assert [] + p == p;
  }

  // ----- what is read -----

  /** Kinds may be empty; other names are not, and none has a delimiter. */
  predicate Readable(p: Pipeline) {
    p == [] || (Readable(p[..|p| - 1]) && ReadableElem(p[|p| - 1]))
  }

  predicate ReadableElem(e: Elem) {
    match e
    case Pass(name) => Token(name)
    case Mgr(kind, body) => (kind == "" || Token(kind)) && Readable(body)
    case Anon(_) => false
  }

  lemma {:induction false} ReadableNamed(p: Pipeline)
    requires Readable(p)
    ensures Named(p) <==> Clean(p)
    decreases p
  {
    if p != [] {
      ReadableNamed(p[..|p| - 1]);
      if p[|p| - 1].Mgr? {
        ReadableNamed(p[|p| - 1].body);
      }
    }
  }

  predicate ReadableState(st: PState) {
    && (st.tok == "" || Token(st.tok)) && (st.kind == "" || Token(st.kind)) && Readable(st.curr)
    && forall i :: 0 <= i < |st.stack| ==>
         (st.stack[i].kind == "" || Token(st.stack[i].kind)) && Readable(st.stack[i].curr)
  }

  lemma ReadableAppend(p: Pipeline, e: Elem)
    requires Readable(p) && ReadableElem(e)
    ensures Readable(p + [e])
  {
    assert (p + [e])[..|p|] == p;
  }

  lemma FlushReadable(st: PState)
    requires ReadableState(st)
    ensures ReadableState(Flush(st))
  {
    if st.tok != "" {
      ReadableAppend(st.curr, Pass(st.tok));
    }
  }

  lemma {:induction false} FeedReadable(s: string)
    requires FeedAll(START, s).Some?
    ensures ReadableState(FeedAll(START, s).value)
  {
    if s != "" {
      hide Readable, ReadableElem;
      FeedReadable(s[..|s| - 1]);
      FeedReadableChar(FeedAll(START, s[..|s| - 1]).value, s[|s| - 1]);
    } else {
      assert Readable([]);
    }
  }

  lemma FeedReadableChar(st: PState, c: char)
    requires ReadableState(st) && Feed(st, c).Some?
    ensures ReadableState(Feed(st, c).value)
  {
    FlushReadable(st);
    if c == ')' {
      var f := Flush(st);
      ReadableAppend(f.stack[|f.stack| - 1].curr, Mgr(f.kind, f.curr));
    }
  }

  /** What was read can be printed if and only if all names are nonempty. */
  lemma ReadNamed(s: string)
    requires FromStr(s).Some?
    ensures Named(FromStr(s).value) <==> Clean(FromStr(s).value)
  {
    hide FeedAll, Flush, Readable, Named, Clean;
    FeedReadable(s);
    FlushReadable(FeedAll(START, s).value);
    ReadableNamed(FromStr(s).value);
  }

  // ----- the printed strings -----

  /** May b follow a? The start of a string counts as an opening parenthesis, and its end as a
      closing one. */
  predicate Follows(a: char, b: char) {
    if a == '(' then b != ',' && b != '('
    else if a == ',' then !Delimiter(b)
    else if a == ')' then b == ',' || b == ')'
    else true
  }

  predicate Chain(s: string) {
    forall i :: 0 < i < |s| ==> Follows(s[i - 1], s[i])
  }

  /** Opening parentheses less closing ones. */
  function Depth(s: string): int {
    if s == "" then 0
    else Depth(s[..|s| - 1]) + (if s[|s| - 1] == '(' then 1 else if s[|s| - 1] == ')' then -1 else 0)
  }

  predicate Balanced(s: string) {
    Depth(s) == 0 && forall i :: 0 <= i <= |s| ==> Depth(s[..i]) >= 0
  }

  /** The syntax of printed pipelines, without reference to pipelines. */
  predicate Regular(s: string) {
    Chain("(" + s + ")") && Balanced(s)
  }

  lemma {:induction false} DepthConcat(a: string, b: string)
    ensures Depth(a + b) == Depth(a) + Depth(b)
  {
    if b == "" {
      assert a + b == a;
    } else {
      DepthConcat(a, b[..|b| - 1]);
      assert (a + b)[..|a + b| - 1] == a + b[..|b| - 1];
    }
  }

  lemma BalancedConcat(a: string, b: string)
    requires Balanced(a) && Balanced(b)
    ensures Balanced(a + b)
  {
    DepthConcat(a, b);
    forall i | 0 <= i <= |a + b|
      ensures Depth((a + b)[..i]) >= 0
    {
      if i <= |a| {
        assert (a + b)[..i] == a[..i];
      } else {
        assert (a + b)[..i] == a + b[..i - |a|];
        DepthConcat(a, b[..i - |a|]);
      }
    }
  }

  lemma BalancedParens(s: string)
    requires Balanced(s)
    ensures Balanced("(" + s + ")")
  {
    DepthConcat("(", s);
    DepthConcat("(" + s, ")");
    assert Depth("(") == 1 && Depth(")") == -1;
    forall i | 0 <= i <= |s| + 2
      ensures Depth(("(" + s + ")")[..i]) >= 0
    {
      if 0 < i <= |s| + 1 {
        assert ("(" + s + ")")[..i] == "(" + s[..i - 1];
        DepthConcat("(", s[..i - 1]);
      } else if i == |s| + 2 {
        assert ("(" + s + ")")[..i] == "(" + s + ")";
      }
    }
  }

  lemma {:induction false} TokenBalanced(s: string)
    requires forall i :: 0 <= i < |s| ==> s[i] != '(' && s[i] != ')'
    ensures Balanced(s)
  {
    if s != "" {
      var n := |s| - 1;
      TokenBalanced(s[..n]);
      forall i | 0 <= i <= |s|
        ensures Depth(s[..i]) >= 0
      {
        if i <= n {
          assert s[..i] == s[..n][..i];
        } else {
          assert s[..i] == s;
        }
      }
    }
  }

  /** Starts with a name, ends with a name or a closing parenthesis. */
  predicate Bracketed(s: string) {
    s != "" && !Delimiter(s[0]) && s[|s| - 1] != ',' && s[|s| - 1] != '('
  }

  lemma {:induction false} ElemRegular(e: Elem)
    requires CleanElem(e)
    ensures var s := ElemStr(e); Chain(s) && Balanced(s) && Bracketed(s)
    decreases e
  {
    match e
    case Pass(name) => TokenBalanced(name);
    case Mgr(kind, body) =>
      var s := ToStr(body);
      PipelineRegular(body);
      TokenBalanced(kind);
      BalancedParens(s);
      BalancedConcat(kind, "(" + s + ")");
      assert ElemStr(e) == kind + ("(" + s + ")");
      assert Chain("(" + s + ")");
  }

  /** Two elements with a comma in between. */
  lemma JoinRegular(a: string, b: string)
    requires Chain(a) && Balanced(a) && Bracketed(a) && Chain(b) && Balanced(b) && Bracketed(b)
    ensures Chain(a + "," + b) && Balanced(a + "," + b) && Bracketed(a + "," + b)
  {
    hide Balanced;
    TokenBalanced(",");
    BalancedConcat(a, ",");
    BalancedConcat(a + ",", b);
  }

  lemma {:induction false} PipelineRegular(p: Pipeline)
    requires Clean(p)
    ensures var s := ToStr(p); Chain(s) && Balanced(s) && (p != [] ==> Bracketed(s)) && (p == [] ==> s == "")
    decreases p
  {
    if p == [] {
      TokenBalanced("");
    } else {
      hide Chain, Balanced, Bracketed, CleanElem, ElemStr;
      var q, e := p[..|p| - 1], p[|p| - 1];
      PipelineRegular(q);
      ElemRegular(e);
      if q == [] {
        assert ToStr(p) == ElemStr(e);
      } else {
        JoinRegular(ToStr(q), ElemStr(e));
        assert ToStr(p) == ToStr(q) + "," + ElemStr(e);
      }
    }
  }

  /** Printed pipelines have that syntax ... */
  lemma PrintedRegular(p: Pipeline)
    requires Clean(p)
    ensures Regular(ToStr(p))
  {
    PipelineRegular(p);
  }

  // ----- ... and everything with that syntax is printed -----

  function Listed(p: Pipeline): string {
    if p == [] then "" else ToStr(p) + ","
  }

  /** The text up to the innermost opening parenthesis. */
  function Opened(stack: seq<Frame>, kind: string): string {
    if stack == [] then ""
    else
      var top := stack[|stack| - 1];
      Opened(stack[..|stack| - 1], top.kind) + Listed(top.curr) + kind + "("
  }

  predicate CleanFrames(stack: seq<Frame>, kind: string) {
    if stack == [] then kind == ""
    else
      var top := stack[|stack| - 1];
      Token(kind) && Clean(top.curr) && CleanFrames(stack[..|stack| - 1], top.kind)
  }

  /** The parser's state after reading s: it could print s again. */
  predicate Reprints(st: PState, s: string) {
    && CleanFrames(st.stack, st.kind) && Clean(st.curr) && |st.stack| == Depth(s)
    && (forall i :: 0 <= i < |st.tok| ==> !Delimiter(st.tok[i]))
    && var last := if s == "" then '(' else s[|s| - 1];
       && (st.tok != "" <==> !Delimiter(last))
       && (last == '(' ==> st.curr == [])
       && ((last == ')' || last == ',') ==> st.curr != [])
       && s == Opened(st.stack, st.kind)
               + (if st.tok != "" || last == ',' then Listed(st.curr) + st.tok else ToStr(st.curr))
  }

  lemma CleanAppend(p: Pipeline, e: Elem)
    requires Clean(p) && CleanElem(e)
    ensures Clean(p + [e]) && ToStr(p + [e]) == Listed(p) + ElemStr(e)
  {
    assert (p + [e])[..|p|] == p;
  }

  lemma DepthStep(s: string, c: char)
    ensures Depth(s + [c]) == Depth(s) + (if c == '(' then 1 else if c == ')' then -1 else 0)
  {
    assert (s + [c])[..|s|] == s;
  }

  lemma FlushReprints(st: PState, s: string)
    requires Reprints(st, s) && (s != "" ==> s[|s| - 1] != ',')
    ensures var f := Flush(st);
            && Clean(f.curr) && s == Opened(st.stack, st.kind) + ToStr(f.curr)
            && (s != "" && s[|s| - 1] != '(' ==> f.curr != [])
  {
    hide Clean, ToStr, Opened, Depth, CleanFrames;
    if st.tok != "" {
      TokenClean(st.tok);
      CleanAppend(st.curr, Pass(st.tok));
      assert s == Opened(st.stack, st.kind) + (Listed(st.curr) + st.tok);
    }
  }

  lemma TokenClean(s: string)
    requires Token(s)
    ensures CleanElem(Pass(s)) && ElemStr(Pass(s)) == s
  {
  }

  lemma FeedName(st: PState, s: string, c: char)
    requires !Delimiter(c)
    requires Reprints(st, s) && Follows(if s == "" then '(' else s[|s| - 1], c)
    ensures Feed(st, c).Some? && Reprints(Feed(st, c).value, s + [c])
  {
    hide Clean, ToStr, Opened, CleanFrames, Depth, Listed;
    DepthStep(s, c);
    NameText(st, s, c);
  }

  /** A name begins or goes on. */
  lemma NameText(st: PState, s: string, c: char)
    requires Reprints(st, s) && (s != "" ==> s[|s| - 1] != ')')
    ensures s + [c] == Opened(st.stack, st.kind) + (Listed(st.curr) + (st.tok + [c]))
  {
    hide Clean, ToStr, Opened, CleanFrames, Depth, Listed;
    NothingListed(st.curr);
    if st.tok == "" {
      assert st.tok + [c] == [c];
    }
    SnocText(Opened(st.stack, st.kind), Listed(st.curr), st.tok, c);
  }

  lemma SnocText(a: string, b: string, t: string, c: char)
    ensures a + (b + t) + [c] == a + (b + (t + [c]))
    ensures t == "" ==> b + t == b
  {
  }

  lemma NothingListed(p: Pipeline)
    ensures p == [] ==> Listed(p) == ToStr(p) == "" && Clean(p)
  {
  }

  lemma FeedComma(st: PState, s: string)
    requires Reprints(st, s) && Follows(if s == "" then '(' else s[|s| - 1], ',')
    ensures Feed(st, ',').Some? && Reprints(Feed(st, ',').value, s + [','])
  {
    hide Clean, ToStr, Opened, CleanFrames, Depth;
    DepthStep(s, ',');
    FlushReprints(st, s);
    assert s + "," == Opened(st.stack, st.kind) + (Listed(Flush(st).curr) + "");
  }

  lemma FeedOpen(st: PState, s: string)
    requires Reprints(st, s) && Follows(if s == "" then '(' else s[|s| - 1], '(')
    ensures Feed(st, '(').Some? && Reprints(Feed(st, '(').value, s + ['('])
  {
    hide Clean, ToStr, Depth;
    DepthStep(s, '(');
    var st' := Feed(st, '(').value;
    assert st'.stack[..|st.stack|] == st.stack;
    NothingListed(st'.curr);
    assert s + "(" == Opened(st.stack, st.kind) + Listed(st.curr) + st.tok + "(";
  }

  lemma FeedClose(st: PState, s: string)
    requires Depth(s) > 0
    requires Reprints(st, s) && Follows(if s == "" then '(' else s[|s| - 1], ')')
    ensures Feed(st, ')').Some? && Reprints(Feed(st, ')').value, s + [')'])
  {
    hide Clean, ToStr, Depth, Opened, CleanFrames, Reprints, Flush;
    DepthStep(s, ')');
    StackReprints(st, s);
    FlushReprints(st, s);
    FlushSame(st);
    var f := Flush(st);
    CloseText(s, f);
    ClosedReprints(Feed(st, ')').value, s);
  }

  lemma FlushSame(st: PState)
    ensures Flush(st).stack == st.stack && Flush(st).kind == st.kind && Flush(st).tok == ""
  {
  }

  /** The manager that a parenthesis closes, and the text before it. */
  lemma CloseText(s: string, f: PState)
    requires f.stack != [] && CleanFrames(f.stack, f.kind) && Clean(f.curr)
    requires s == Opened(f.stack, f.kind) + ToStr(f.curr)
    ensures var top, rest := f.stack[|f.stack| - 1], f.stack[..|f.stack| - 1];
            var curr := top.curr + [Mgr(f.kind, f.curr)];
            CleanFrames(rest, top.kind) && Clean(curr) && s + ")" == Opened(rest, top.kind) + ToStr(curr)
  {
    hide Clean, ToStr, Opened, CleanFrames, Listed, CleanElem, ElemStr, Token;
    var top, rest := f.stack[|f.stack| - 1], f.stack[..|f.stack| - 1];
    FramesStep(f.stack, f.kind);
    MgrClean(f.kind, f.curr);
    CleanAppend(top.curr, Mgr(f.kind, f.curr));
    CloseStr(Opened(rest, top.kind), Listed(top.curr), f.kind, ToStr(f.curr));
  }

  lemma StackReprints(st: PState, s: string)
    requires Reprints(st, s)
    ensures CleanFrames(st.stack, st.kind) && |st.stack| == Depth(s)
    ensures s != "" && s[|s| - 1] == ',' ==> !Follows(',', ')')
  {
    hide Clean, ToStr, Depth, Opened, CleanFrames;
  }

  lemma ClosedReprints(st: PState, s: string)
    requires CleanFrames(st.stack, st.kind) && Clean(st.curr) && |st.stack| == Depth(s + ")")
    requires st.tok == "" && st.curr != [] && s + ")" == Opened(st.stack, st.kind) + ToStr(st.curr)
    ensures Reprints(st, s + ")")
  {
    hide Clean, ToStr, Depth, Opened, CleanFrames;
  }

  lemma CloseStr(a: string, b: string, kind: string, body: string)
    ensures a + b + kind + "(" + body + ")" == a + (b + (kind + "(" + body + ")"))
  {
  }

  lemma FramesStep(stack: seq<Frame>, kind: string)
    requires stack != [] && CleanFrames(stack, kind)
    ensures var top, rest := stack[|stack| - 1], stack[..|stack| - 1];
            && Opened(stack, kind) == Opened(rest, top.kind) + Listed(top.curr) + kind + "("
            && Token(kind) && Clean(top.curr) && CleanFrames(rest, top.kind)
  {
  }

  lemma MgrClean(kind: string, p: Pipeline)
    requires Token(kind) && Clean(p)
    ensures CleanElem(Mgr(kind, p)) && ElemStr(Mgr(kind, p)) == kind + "(" + ToStr(p) + ")"
  {
  }

  /** Feeding one more character. */
  lemma FeedReprints(st: PState, s: string, c: char)
    requires c == ')' ==> Depth(s) > 0
    requires Reprints(st, s) && Follows(if s == "" then '(' else s[|s| - 1], c)
    ensures Feed(st, c).Some? && Reprints(Feed(st, c).value, s + [c])
  {
    hide Reprints, Feed, Depth;
    if c == '(' {
      FeedOpen(st, s);
    } else if c == ')' {
      FeedClose(st, s);
    } else if c == ',' {
      FeedComma(st, s);
    } else {
      FeedName(st, s, c);
    }
  }

  lemma RegularAt(s: string, i: nat)
    requires Regular(s) && i < |s|
    ensures Follows(if s[..i] == "" then '(' else s[..i][|s[..i]| - 1], s[i])
    ensures s[i] == ')' ==> Depth(s[..i]) > 0
    ensures s[..i + 1] == s[..i] + [s[i]]
  {
    var t := "(" + s + ")";
    assert t[i] == if i == 0 then '(' else s[i - 1];
    assert t[i + 1] == s[i];
    assert s[..i + 1] == s[..i] + [s[i]];
    assert Depth(s[..i + 1]) >= 0;
    DepthStep(s[..i], s[i]);
  }

  lemma FeedAllStep(st: PState, s: string, c: char)
    requires FeedAll(st, s).Some?
    ensures FeedAll(st, s + [c]) == Feed(FeedAll(st, s).value, c)
  {
    assert (s + [c])[..|s|] == s;
  }

  /** After reading s, the parser is in a state from which it could print s again. */
  ghost predicate CanReprint(s: string) {
    FeedAll(START, s).Some? && Reprints(FeedAll(START, s).value, s)
  }

  lemma OneMore(s: string, c: char)
    requires CanReprint(s) && Follows(if s == "" then '(' else s[|s| - 1], c) && (c == ')' ==> Depth(s) > 0)
    ensures CanReprint(s + [c])
  {
    hide Reprints, Feed, FeedAll, Depth, Follows;
    FeedReprints(FeedAll(START, s).value, s, c);
    FeedAllStep(START, s, c);
  }

  lemma {:induction false} FeedAllReprints(s: string, i: nat)
    requires Regular(s) && i <= |s|
    ensures CanReprint(s[..i])
  {
    hide CanReprint, Regular, Depth, Follows;
    if i == 0 {
      assert s[..0] == "";
      StartReprints();
    } else {
      FeedAllReprints(s, i - 1);
      RegularAt(s, i - 1);
      OneMore(s[..i - 1], s[i - 1]);
    }
  }

  lemma StartReprints()
    ensures CanReprint("")
  {
  }

  lemma RegularPrinted(s: string)
    requires Regular(s)
    ensures FromStr(s).Some? && Clean(FromStr(s).value) && ToStr(FromStr(s).value) == s
  {
    FeedAllReprints(s, |s|);
    assert s[..|s|] == s;
    var st, t := FeedAll(START, s).value, "(" + s + ")";
    assert t[|s| + 1] == ')' && t[|s|] == if s == "" then '(' else s[|s| - 1];
    if st.tok != "" {
      CleanAppend(st.curr, Pass(st.tok));
    }
  }

  /** Exactly the strings with that syntax survive reading and printing. */
  lemma PrintedExactly(s: string)
    ensures Regular(s) <==> FromStr(s).Some? && Named(FromStr(s).value) && ToStr(FromStr(s).value) == s
  {
    hide Regular, Clean, Named, FromStr, ToStr;
    if Regular(s) {
      RegularPrinted(s);
    }
    if FromStr(s).Some? {
      ReadNamed(s);
      if Clean(FromStr(s).value) {
        PrintedRegular(FromStr(s).value);
      }
    }
  }

  // ----- counting, splitting, removing, pruning -----

  /** A pass, or what counts as one, with the kinds of the managers around it, outermost first. */
  datatype Leaf = Leaf(elem: Elem, chain: seq<string>)

  function Leaves(p: Pipeline, chain: seq<string>): seq<Leaf> {
    if p == [] then [] else Leaves(p[..|p| - 1], chain) + ElemLeaves(p[|p| - 1], chain)
  }

  function ElemLeaves(e: Elem, chain: seq<string>): seq<Leaf> {
    if IsMgr(e) then Leaves(e.body, chain + [e.kind]) else [Leaf(ToPass(e), chain)]
  }

  /** The managers alone. */
  function Skeleton(p: Pipeline): Pipeline {
    if p == [] then []
    else Skeleton(p[..|p| - 1]) + Managers(p[|p| - 1])
  }

  function Managers(e: Elem): Pipeline {
    if IsMgr(e) then [Mgr(e.kind, Skeleton(e.body))] else []
  }

  function Count(p: Pipeline): nat {
    if p == [] then 0
    else Count(p[..|p| - 1]) + if IsMgr(p[|p| - 1]) then Count(p[|p| - 1].body) else 1
  }

  lemma {:induction false} CountLeaves(p: Pipeline, chain: seq<string>)
    ensures Count(p) == |Leaves(p, chain)|
    decreases p
  {
    if p != [] {
      CountLeaves(p[..|p| - 1], chain);
      if IsMgr(p[|p| - 1]) {
        CountLeaves(p[|p| - 1].body, chain + [p[|p| - 1].kind]);
      }
    }
  }

  method CountPasses(p: Pipeline) returns (cnt: nat)
    ensures cnt == Count(p)
    decreases p
  {
    cnt := 0;
    for i := 0 to |p|
      invariant cnt == Count(p[..i])
    {
      assert p[..i + 1][..i] == p[..i];
      if IsMgr(p[i]) {
        var n := CountPasses(p[i].body);
        cnt := cnt + n;
      } else {
        cnt := cnt + 1;
      }
    }
    assert p[..|p|] == p;
  }

  datatype Halves = Halves(a: Pipeline, b: Pipeline, idx: nat)

  /** Passes up to index k go to the first half, the others to the second; managers go to
      both. Counting starts at idx. */
  function SplitFrom(p: Pipeline, k: int, idx: nat): Halves {
    if p == [] then Halves([], [], idx)
    else
      var r := SplitFrom(p[..|p| - 1], k, idx);
      var s := SplitElem(p[|p| - 1], k, r.idx);
      Halves(r.a + s.a, r.b + s.b, s.idx)
  }

  function SplitElem(e: Elem, k: int, idx: nat): Halves {
    if IsMgr(e) then
      var q := SplitFrom(e.body, k, idx);
      Halves([Mgr(e.kind, q.a)], [Mgr(e.kind, q.b)], q.idx)
    else if idx <= k then Halves([ToPass(e)], [], idx + 1)
    else Halves([], [ToPass(e)], idx + 1)
  }

  method SplitInt(src: Pipeline, k: int, idx0: nat) returns (dstA: Pipeline, dstB: Pipeline, idx: nat)
    ensures Halves(dstA, dstB, idx) == SplitFrom(src, k, idx0)
    decreases src
  {
    dstA, dstB, idx := [], [], idx0;
    for i := 0 to |src|
      invariant Halves(dstA, dstB, idx) == SplitFrom(src[..i], k, idx0)
    {
      assert src[..i + 1][..i] == src[..i];
      var s := src[i];
      if IsMgr(s) {
        var dstA2, dstB2;
        dstA2, dstB2, idx := SplitInt(s.body, k, idx);
        dstA, dstB := dstA + [Mgr(s.kind, dstA2)], dstB + [Mgr(s.kind, dstB2)];
      } else {
        if idx <= k {
          dstA := dstA + [ToPass(s)];
        } else {
          dstB := dstB + [ToPass(s)];
        }
        idx := idx + 1;
      }
    }
    assert src[..|src|] == src;
  }

  method Split(p: Pipeline, k: int) returns (a: Pipeline, b: Pipeline)
    ensures a == SplitFrom(p, k, 0).a && b == SplitFrom(p, k, 0).b
  {
    var idx;
    a, b, idx := SplitInt(p, k, 0);
  }

  function Clamp(x: int, n: nat): (r: nat)
    ensures r <= n
  {
    if x < 0 then 0 else if x > n then n else x
  }

  ghost predicate SplitOK(p: Pipeline, r: Halves, k: int, idx: nat, chain: seq<string>) {
    var l := Leaves(p, chain);
    var m := Clamp(k + 1 - idx, |l|);
    && Leaves(r.a, chain) == l[..m] && Leaves(r.b, chain) == l[m..]
    && Skeleton(r.a) == Skeleton(r.b) == Skeleton(p) && r.idx == idx + |l|
  }

  lemma SplitConcat(p: Pipeline, r: Halves, q: Pipeline, s: Halves, k: int, idx: nat, chain: seq<string>)
    requires SplitOK(p, r, k, idx, chain) && SplitOK(q, s, k, r.idx, chain)
    ensures SplitOK(p + q, Halves(r.a + s.a, r.b + s.b, s.idx), k, idx, chain)
  {
    hide Leaves, Skeleton, Clamp;
    Concat(p, q, chain);
    Concat(r.a, s.a, chain);
    Concat(r.b, s.b, chain);
    ClampConcat(Leaves(p, chain), Leaves(q, chain), k + 1 - idx);
  }

  /** The halves are the first passes and the rest, each with its chain of managers, and both
      keep all managers. */
  lemma {:induction false} SplitLeaves(p: Pipeline, k: int, idx: nat, chain: seq<string>)
    ensures var r, l := SplitFrom(p, k, idx), Leaves(p, chain);
            var m := Clamp(k + 1 - idx, |l|);
            && Leaves(r.a, chain) == l[..m] && Leaves(r.b, chain) == l[m..]
            && Skeleton(r.a) == Skeleton(r.b) == Skeleton(p) && r.idx == idx + |l|
    decreases p, 0
  {
    if p != [] {
      hide Leaves, Skeleton, Clamp, SplitElem;
      var q, e := p[..|p| - 1], p[|p| - 1];
      assert p == q + [e];
      SplitLeaves(q, k, idx, chain);
      var r := SplitFrom(q, k, idx);
      SplitElemLeaves(e, k, r.idx, chain);
      SplitConcat(q, r, [e], SplitElem(e, k, r.idx), k, idx, chain);
    }
  }

  lemma {:induction false} SplitElemLeaves(e: Elem, k: int, idx: nat, chain: seq<string>)
    ensures SplitOK([e], SplitElem(e, k, idx), k, idx, chain)
    decreases e, 1
  {
    Single(e, chain);
    if IsMgr(e) {
      hide Leaves, Skeleton, Clamp, SplitFrom;
      SplitLeaves(e.body, k, idx, chain + [e.kind]);
      var q := SplitFrom(e.body, k, idx);
      Single(Mgr(e.kind, q.a), chain);
      Single(Mgr(e.kind, q.b), chain);
    } else {
      Single(ToPass(e), chain);
    }
  }

  lemma ClampConcat<T>(s: seq<T>, t: seq<T>, x: int)
    ensures (s + t)[..Clamp(x, |s + t|)] == s[..Clamp(x, |s|)] + t[..Clamp(x - |s|, |t|)]
    ensures (s + t)[Clamp(x, |s + t|)..] == s[Clamp(x, |s|)..] + t[Clamp(x - |s|, |t|)..]
  {
  }

  lemma Single(e: Elem, chain: seq<string>)
    ensures Leaves([e], chain) == ElemLeaves(e, chain)
    ensures Skeleton([e]) == Managers(e)
  {
    assert [e][..0] == [];
  }

  lemma Assoc<T>(a: seq<T>, b: seq<T>, c: seq<T>)
    ensures a + (b + c) == (a + b) + c
  {
  }

  lemma Snoc<T>(p: seq<T>, q: seq<T>)
    requires q != []
    ensures q == q[..|q| - 1] + [q[|q| - 1]] && p + q == (p + q[..|q| - 1]) + [q[|q| - 1]]
  {
  }

  lemma {:induction false} Concat(p: Pipeline, q: Pipeline, chain: seq<string>)
    ensures Leaves(p + q, chain) == Leaves(p, chain) + Leaves(q, chain)
    ensures Skeleton(p + q) == Skeleton(p) + Skeleton(q)
    decreases |q|
  {
    if q == [] {
      assert p + q == p;
    } else {
      hide Leaves, Skeleton, ElemLeaves;
      var q', e := q[..|q| - 1], q[|q| - 1];
      Snoc(p, q);
      Concat(p, q', chain);
      Appended(p + q', e, chain);
      Appended(q', e, chain);
      Assoc(Leaves(p, chain), Leaves(q', chain), ElemLeaves(e, chain));
      Assoc(Skeleton(p), Skeleton(q'), Managers(e));
    }
  }

  lemma Appended(p: Pipeline, e: Elem, chain: seq<string>)
    ensures Leaves(p + [e], chain) == Leaves(p, chain) + ElemLeaves(e, chain)
    ensures Skeleton(p + [e]) == Skeleton(p) + Managers(e)
  {
    assert (p + [e])[..|p|] == p;
  }

  datatype Removed = Removed(p: Pipeline, idx: nat)

  function RemoveFrom(p: Pipeline, k: int, idx: nat): Removed {
    if p == [] then Removed([], idx)
    else
      var r := RemoveFrom(p[..|p| - 1], k, idx);
      var s := RemoveElem(p[|p| - 1], k, r.idx);
      Removed(r.p + s.p, s.idx)
  }

  function RemoveElem(e: Elem, k: int, idx: nat): Removed {
    if IsMgr(e) then
      var q := RemoveFrom(e.body, k, idx);
      Removed([Mgr(e.kind, q.p)], q.idx)
    else Removed(if idx != k then [ToPass(e)] else [], idx + 1)
  }

  method RemoveInt(src: Pipeline, k: int, idx0: nat) returns (dst: Pipeline, idx: nat)
    ensures Removed(dst, idx) == RemoveFrom(src, k, idx0)
    decreases src
  {
    dst, idx := [], idx0;
    for i := 0 to |src|
      invariant Removed(dst, idx) == RemoveFrom(src[..i], k, idx0)
    {
      assert src[..i + 1][..i] == src[..i];
      var s := src[i];
      if IsMgr(s) {
        var dst2;
        dst2, idx := RemoveInt(s.body, k, idx);
        dst := dst + [Mgr(s.kind, dst2)];
      } else {
        if idx != k {
          dst := dst + [ToPass(s)];
        }
        idx := idx + 1;
      }
    }
    assert src[..|src|] == src;
  }

  method Remove(p: Pipeline, k: int) returns (r: Pipeline)
    ensures r == RemoveFrom(p, k, 0).p
  {
    var idx;
    r, idx := RemoveInt(p, k, 0);
  }

  /** All elements but the i-th; all, if there is no i-th. */
  function Without<T>(s: seq<T>, i: int): seq<T> {
    if 0 <= i < |s| then s[..i] + s[i + 1..] else s
  }

  lemma WithoutConcat<T>(s: seq<T>, t: seq<T>, i: int)
    ensures Without(s + t, i) == Without(s, i) + Without(t, i - |s|)
  {
    if 0 <= i < |s| {
      CutLeft(s, t, i);
    } else if 0 <= i - |s| < |t| {
      CutRight(s, t, i - |s|);
    }
  }

  lemma CutLeft<T>(s: seq<T>, t: seq<T>, i: nat)
    requires i < |s|
    ensures (s + t)[..i] + (s + t)[i + 1..] == (s[..i] + s[i + 1..]) + t
  {
    assert (s + t)[..i] == s[..i] && (s + t)[i + 1..] == s[i + 1..] + t;
  }

  lemma CutRight<T>(s: seq<T>, t: seq<T>, j: nat)
    requires j < |t|
    ensures (s + t)[..|s| + j] + (s + t)[|s| + j + 1..] == s + (t[..j] + t[j + 1..])
  {
    assert (s + t)[..|s| + j] == s + t[..j] && (s + t)[|s| + j + 1..] == t[j + 1..];
  }

  ghost predicate RemoveOK(p: Pipeline, r: Removed, k: int, idx: nat, chain: seq<string>) {
    var l := Leaves(p, chain);
    Leaves(r.p, chain) == Without(l, k - idx) && Skeleton(r.p) == Skeleton(p) && r.idx == idx + |l|
  }

  lemma RemoveConcat(p: Pipeline, r: Removed, q: Pipeline, s: Removed, k: int, idx: nat, chain: seq<string>)
    requires RemoveOK(p, r, k, idx, chain) && RemoveOK(q, s, k, r.idx, chain)
    ensures RemoveOK(p + q, Removed(r.p + s.p, s.idx), k, idx, chain)
  {
    hide Leaves, Skeleton, Without;
    Concat(p, q, chain);
    Concat(r.p, s.p, chain);
    WithoutConcat(Leaves(p, chain), Leaves(q, chain), k - idx);
  }

  /** Exactly the k-th pass goes, and no manager does. */
  lemma {:induction false} RemoveLeaves(p: Pipeline, k: int, idx: nat, chain: seq<string>)
    ensures var r, l := RemoveFrom(p, k, idx), Leaves(p, chain);
            Leaves(r.p, chain) == Without(l, k - idx) && Skeleton(r.p) == Skeleton(p) && r.idx == idx + |l|
    decreases p, 0
  {
    if p != [] {
      hide Leaves, Skeleton, RemoveElem, Without;
      var q, e := p[..|p| - 1], p[|p| - 1];
      assert p == q + [e];
      RemoveLeaves(q, k, idx, chain);
      var r := RemoveFrom(q, k, idx);
      RemoveElemLeaves(e, k, r.idx, chain);
      RemoveConcat(q, r, [e], RemoveElem(e, k, r.idx), k, idx, chain);
    }
  }

  lemma {:induction false} RemoveElemLeaves(e: Elem, k: int, idx: nat, chain: seq<string>)
    ensures RemoveOK([e], RemoveElem(e, k, idx), k, idx, chain)
    decreases e, 1
  {
    Single(e, chain);
    if IsMgr(e) {
      hide Leaves, Skeleton, RemoveFrom, Without;
      RemoveLeaves(e.body, k, idx, chain + [e.kind]);
      Single(Mgr(e.kind, RemoveFrom(e.body, k, idx).p), chain);
    } else {
      Single(ToPass(e), chain);
    }
  }

  function Copied(p: Pipeline): (r: Pipeline)
    ensures |r| == |p|
  {
    if p == [] then [] else Copied(p[..|p| - 1]) + [CopiedElem(p[|p| - 1])]
  }

  function CopiedElem(e: Elem): Elem {
    if IsMgr(e) then Mgr(e.kind, Copied(e.body)) else ToPass(e)
  }

  method Copy(src: Pipeline) returns (dst: Pipeline)
    ensures dst == Copied(src)
    decreases src
  {
    dst := [];
    for i := 0 to |src|
      invariant dst == Copied(src[..i])
    {
      assert src[..i + 1][..i] == src[..i];
      var s := src[i];
      if IsMgr(s) {
        var dst2 := Copy(s.body);
        dst := dst + [Mgr(s.kind, dst2)];
      } else {
        dst := dst + [ToPass(s)];
      }
    }
    assert src[..|src|] == src;
  }

  /** Where a kind is empty, it shows. */
  predicate NoBlank(p: Pipeline) {
    p == [] || (NoBlank(p[..|p| - 1]) && NoBlankElem(p[|p| - 1]))
  }

  predicate NoBlankElem(e: Elem) {
    e.Mgr? ==> e.kind != "" && NoBlank(e.body)
  }

  /** A copy is the same pipeline, if and only if no kind outside of what counts as a pass is the
      empty string, which becomes no kind at all; it has the same passes and managers in any case. */
  lemma {:induction false} CopySame(p: Pipeline, chain: seq<string>)
    ensures Copied(p) == p <==> NoBlank(p)
    ensures Leaves(Copied(p), chain) == Leaves(p, chain) && Skeleton(Copied(p)) == Skeleton(p)
    ensures NoBlank(Copied(p))
    decreases p, 0
  {
    if p != [] {
      hide Leaves, Skeleton, CopiedElem, ElemLeaves, Managers, NoBlankElem;
      var q, e := p[..|p| - 1], p[|p| - 1];
      CopySame(q, chain);
      CopySameElem(e, chain);
      Appended(Copied(q), CopiedElem(e), chain);
      NoBlankAppend(Copied(q), CopiedElem(e));
      Snoc([], p);
      SnocSame(Copied(q), q, CopiedElem(e), e);
      Appended(q, e, chain);
    }
  }

  lemma {:induction false} CopySameElem(e: Elem, chain: seq<string>)
    ensures CopiedElem(e) == e <==> NoBlankElem(e)
    ensures ElemLeaves(CopiedElem(e), chain) == ElemLeaves(e, chain) && Managers(CopiedElem(e)) == Managers(e)
    ensures NoBlankElem(CopiedElem(e))
    decreases e, 1
  {
    hide Leaves, Skeleton, Copied, NoBlank;
    if IsMgr(e) {
      CopySame(e.body, chain + [e.kind]);
    }
  }

  lemma SnocSame<T>(a: seq<T>, b: seq<T>, x: T, y: T)
    requires |a| == |b|
    ensures a + [x] == b + [y] <==> a == b && x == y
  {
    assert (a + [x])[..|a|] == a && (b + [y])[..|b|] == b && (a + [x])[|a|] == x && (b + [y])[|b|] == y;
  }

  lemma NoBlankAppend(p: Pipeline, e: Elem)
    ensures NoBlank(p + [e]) == (NoBlank(p) && NoBlankElem(e))
  {
    assert (p + [e])[..|p|] == p;
  }

  function Pruned(p: Pipeline): Pipeline {
    if p == [] then []
    else Pruned(p[..|p| - 1]) + PrunedElem(p[|p| - 1])
  }

  function PrunedElem(e: Elem): Pipeline {
    if !IsMgr(e) then [ToPass(e)]
    else if Count(e.body) != 0 then [Mgr(e.kind, Pruned(e.body))]
    else []
  }

  method Prune(src: Pipeline) returns (dst: Pipeline)
    ensures dst == Pruned(src)
    decreases src
  {
    dst := [];
    for i := 0 to |src|
      invariant dst == Pruned(src[..i])
    {
      assert src[..i + 1][..i] == src[..i];
      var s := src[i];
      if IsMgr(s) {
        var n := CountPasses(s.body);
        if n != 0 {
          var dst2 := Prune(s.body);
          dst := dst + [Mgr(s.kind, dst2)];
        }
      } else {
        dst := dst + [ToPass(s)];
      }
    }
    assert src[..|src|] == src;
  }

  /** Every manager has a pass somewhere inside. */
  predicate NoEmpty(p: Pipeline) {
    p == [] || (NoEmpty(p[..|p| - 1]) && NoEmptyElem(p[|p| - 1]))
  }

  predicate NoEmptyElem(e: Elem) {
    IsMgr(e) ==> Count(e.body) != 0 && NoEmpty(e.body)
  }

  /** Pruning keeps all passes and their chains of managers, and leaves no empty manager. */
  lemma {:induction false} PruneLeaves(p: Pipeline, chain: seq<string>)
    ensures Leaves(Pruned(p), chain) == Leaves(p, chain) && NoEmpty(Pruned(p)) && NoBlank(Pruned(p))
    decreases p, 0
  {
    if p != [] {
      hide Leaves, NoEmpty, NoBlank, Count, PrunedElem;
      var q, e := p[..|p| - 1], p[|p| - 1];
      PruneLeaves(q, chain);
      PruneElemLeaves(e, chain);
      Snoc([], p);
      PruneConcat(Pruned(q), PrunedElem(e), chain);
      PruneConcat(q, [e], chain);
    } else {
      assert NoEmpty([]) && NoBlank([]);
    }
  }

  lemma {:induction false} PruneElemLeaves(e: Elem, chain: seq<string>)
    ensures var r := PrunedElem(e); Leaves(r, chain) == Leaves([e], chain) && NoEmpty(r) && NoBlank(r) && |r| <= 1
    decreases e, 1
  {
    hide Leaves, Count;
    Single(e, chain);
    if IsMgr(e) {
      hide Pruned, NoEmpty, NoBlank;
      PruneLeaves(e.body, chain + [e.kind]);
      CountLeaves(e.body, chain + [e.kind]);
      CountLeaves(Pruned(e.body), chain + [e.kind]);
      Single(Mgr(e.kind, Pruned(e.body)), chain);
      SingleKept(Mgr(e.kind, Pruned(e.body)));
      Nothing(chain);
    } else {
      Single(ToPass(e), chain);
      SingleKept(ToPass(e));
    }
  }

  lemma Nothing(chain: seq<string>)
    ensures Leaves([], chain) == [] && NoEmpty([]) && NoBlank([])
  {
  }

  lemma SingleKept(e: Elem)
    ensures NoEmpty([e]) == NoEmptyElem(e) && NoBlank([e]) == NoBlankElem(e)
  {
    assert [e][..0] == [];
  }

  /** Appending at most one element. */
  lemma PruneConcat(p: Pipeline, r: Pipeline, chain: seq<string>)
    requires |r| <= 1
    ensures Leaves(p + r, chain) == Leaves(p, chain) + Leaves(r, chain)
    ensures NoEmpty(p + r) == (NoEmpty(p) && NoEmpty(r)) && NoBlank(p + r) == (NoBlank(p) && NoBlank(r))
  {
    Concat(p, r, chain);
    if r == [] {
      assert p + r == p;
    } else {
      assert r == [r[0]] && (p + r)[..|p|] == p;
      SingleKept(r[0]);
    }
  }

  /** Exactly the pipelines without empty managers and empty kinds are left as they are; so pruning
      again changes nothing. */
  lemma {:induction false} PruneFixed(p: Pipeline)
    ensures Pruned(p) == p <==> NoEmpty(p) && NoBlank(p)
    ensures Pruned(Pruned(p)) == Pruned(p)
  {
    PruneLeaves(p, []);
    if NoEmpty(p) && NoBlank(p) {
      KeepNonEmpty(p);
    }
    KeepNonEmpty(Pruned(p));
  }

  lemma {:induction false} KeepNonEmpty(p: Pipeline)
    requires NoEmpty(p) && NoBlank(p)
    ensures Pruned(p) == p
    decreases p, 0
  {
    if p != [] {
      hide PrunedElem, NoEmptyElem, NoBlankElem, Count;
      KeepNonEmpty(p[..|p| - 1]);
      KeepNonEmptyElem(p[|p| - 1]);
      Snoc([], p);
    }
  }

  lemma {:induction false} KeepNonEmptyElem(e: Elem)
    requires NoEmptyElem(e) && NoBlankElem(e)
    ensures PrunedElem(e) == [e]
    decreases e, 1
  {
    hide Pruned, NoEmpty, NoBlank, Count;
    if IsMgr(e) {
      KeepNonEmpty(e.body);
    }
  }
}
