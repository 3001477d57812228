/** Path canonicalization, `vfs_canonicalize` of `hexahedron/fs/vfs_new.c`.

A path is a string of non-NUL characters.  The limit PATH_MAX is a parameter of
every definition here, so the results hold whatever the C library sets it to. */
module Canonical {
  import opened Common

  datatype Result = Ok(path: string) | Invalid

  // The component stack holds 50 entries, and filling the last one is an error.
  const STACK_SIZE := 50

  // ---------- tokens ----------

  /** Length of the longest prefix without a slash. */
  function Run(s: string): (n: nat)
    ensures n <= |s| && (n < |s| ==> s[n] == '/') && '/' !in s[..n]
  {
    if s == [] || s[0] == '/' then 0 else 1 + Run(s[1..])
  }

  /** What repeated strtok_r calls with delimiter "/" yield: the non-empty components. */
  function Tokens(s: string): seq<string>
    decreases |s|
  {
    if s == [] then []
    else if s[0] == '/' then Tokens(s[1..])
    else [s[..Run(s)]] + Tokens(s[Run(s)..])
  }

  // ---------- the component stack ----------

  /** One component; None is the overflow error. */
  function Push(stack: seq<string>, tok: string): Option<seq<string>> {
    if tok == "" || tok == "." then Some(stack)
    else if tok == ".." then Some(if stack == [] then [] else stack[..|stack| - 1])
    else if |stack| + 1 >= STACK_SIZE then None
    else Some(stack + [tok])
  }

  function Resolve(stack: seq<string>, toks: seq<string>): Option<seq<string>>
    decreases |toks|
  {
    if toks == [] then Some(stack)
    else match Push(stack, toks[0])
      case None => None
      case Some(next) => Resolve(next, toks[1..])
  }

  function Join(stack: seq<string>): string {
    if stack == [] then ""
    else if |stack| == 1 then stack[0]
    else Join(stack[..|stack| - 1]) + "/" + stack[|stack| - 1]
  }

  function Render(stack: seq<string>): string { "/" + Join(stack) }

  function Combined(wd: Option<string>, input: string): string {
    if wd.None? || (input != "" && input[0] == '/') then input else wd.value + "/" + input
  }

  /** The result of canonicalization.  A path is too long when it leaves less than one
      spare byte beyond its terminator; the root never is. */
  function Canonicalized(wd: Option<string>, input: string, pathMax: nat): Result {
    match Resolve([], Tokens(Combined(wd, input)))
    case None => Invalid
    case Some(stack) =>
      if stack != [] && |Render(stack)| + 1 >= pathMax then Invalid else Ok(Render(stack))
  }

  // ---------- the code ----------

  // A component that starts at `start` and ends before `next` is the first of what is left.
  lemma {:induction false} FirstToken(s: string, start: nat, next: nat)
    requires start < next <= |s| && s[start] != '/' && Run(s[start..]) == next - start
    ensures Tokens(s[start..]) == [s[start..next]] + Tokens(s[next..])
  {
    assert s[start..][..next - start] == s[start..next];
    assert s[start..][next - start..] == s[next..];
  }

  /** strtok_r: skip slashes, then take a component. */
  method NextToken(s: string, from: nat) returns (found: bool, tok: string, next: nat)
    requires from <= |s|
    ensures from <= next <= |s| && (found ==> from < next)
    ensures found <==> Tokens(s[from..]) != []
    ensures found ==> tok == Tokens(s[from..])[0] && Tokens(s[next..]) == Tokens(s[from..])[1..]
  {
    var start := from;
    while start < |s| && s[start] == '/'
      invariant from <= start <= |s|
      invariant Tokens(s[start..]) == Tokens(s[from..])
    {
      assert s[start..][1..] == s[start + 1..];
      start := start + 1;
    }
    next := start;
    if start == |s| { return false, "", start; }
    while next < |s| && s[next] != '/'
      invariant start <= next <= |s|
      invariant Run(s[start..]) == next - start + Run(s[next..])
    {
      assert s[next..][1..] == s[next + 1..];
      next := next + 1;
    }
    FirstToken(s, start, next);
    return true, s[start..next], next;
  }

  /** vfs_canonicalize. */
  method Canonicalize(wd: Option<string>, input: string, pathMax: nat) returns (r: Result)
    ensures r == Canonicalized(wd, input, pathMax)
  {
    var temporary := if wd.None? || (input != "" && input[0] == '/') then input else wd.value + "/" + input;
    var stack: seq<string> := [];
    var found, pch, save := NextToken(temporary, 0);
    assert temporary[0..] == temporary;
    ghost var rest := Tokens(temporary);
    while found
      invariant save <= |temporary|
      invariant found <==> rest != []
      invariant found ==> pch == rest[0] && Tokens(temporary[save..]) == rest[1..]
      invariant Resolve([], Tokens(temporary)) == Resolve(stack, rest)
      decreases |rest|
    {
      if pch == "" || pch == "." {
      } else if pch == ".." {
        if stack != [] { stack := stack[..|stack| - 1]; }
      } else {
        stack := stack + [pch];
        if |stack| >= STACK_SIZE { return Invalid; }
      }
      rest := rest[1..];
      found, pch, save := NextToken(temporary, save);
    }
    r := Build(stack, pathMax);
  }

  /** Rebuild the path from the stack, component by component. */
  method Build(stack: seq<string>, pathMax: nat) returns (r: Result)
    ensures r == if stack != [] && |Render(stack)| + 1 >= pathMax then Invalid else Ok(Render(stack))
  {
    var output := "/";
    for i := 0 to |stack|
      invariant output == Render(stack[..i]) + if 0 < i < |stack| then "/" else ""
      invariant i > 0 ==> |output| + 1 < pathMax
    {
      assert stack[..i + 1][..i] == stack[..i];
      var more := if i + 1 != |stack| then 1 else 0;
      if |stack[i]| + |output| + more + 1 >= pathMax {
        JoinGrows(stack, i + 1);
        return Invalid;
      }
      output := output + stack[i];
      if i + 1 != |stack| { output := output + "/"; }
    }
    assert stack[..|stack|] == stack;
    r := Ok(output);
  }

  /** A longer stack renders strictly longer once a separator is needed. */
  lemma {:induction false} JoinGrows(stack: seq<string>, i: nat)
    requires 1 <= i <= |stack|
    ensures |Join(stack[..i])| + (if i < |stack| then 1 else 0) <= |Join(stack)|
    decreases |stack|
  {
    if i == |stack| {
      assert stack[..i] == stack;
    } else {
      JoinGrows(stack[..|stack| - 1], i);
      assert stack[..|stack| - 1][..i] == stack[..i];
    }
  }

  // ---------- what the result means ----------

  // A component that canonicalization keeps.
  predicate Plain(tok: string) { tok != "" && '/' !in tok && tok != "." && tok != ".." }

  predicate AllPlain(stack: seq<string>) { forall i :: 0 <= i < |stack| ==> Plain(stack[i]) }

  /** Absolute, no empty, dot or dot-dot component, no trailing slash except the root. */
  predicate NormalForm(p: string) {
    && p != "" && p[0] == '/'
    && (|p| > 1 ==> p[|p| - 1] != '/')
    && (forall i :: 0 <= i < |p| - 1 && p[i] == '/' ==> p[i + 1] != '/')
    && (forall tok :: tok in Tokens(p) ==> tok != "." && tok != "..")
  }

  /** Tokens are non-empty and hold no slash. */
  lemma {:induction false} TokensAreComponents(s: string)
    ensures forall tok :: tok in Tokens(s) ==> tok != "" && '/' !in tok
    decreases |s|
  {
    if s != [] {
      if s[0] == '/' { TokensAreComponents(s[1..]); } else { TokensAreComponents(s[Run(s)..]); }
    }
  }

  /** Resolving keeps a stack of plain components, never as many as the stack holds. */
  lemma {:induction false} ResolveKeepsPlain(stack: seq<string>, toks: seq<string>)
    requires AllPlain(stack) && |stack| < STACK_SIZE
    requires forall tok :: tok in toks ==> tok != "" && '/' !in tok
    ensures Resolve(stack, toks).Some? ==>
              AllPlain(Resolve(stack, toks).value) && |Resolve(stack, toks).value| < STACK_SIZE
    decreases |toks|
  {
    if toks != [] {
      var next := Push(stack, toks[0]);
      assert toks[0] in toks && forall tok :: tok in toks[1..] ==> tok in toks;
      if next.Some? { ResolveKeepsPlain(next.value, toks[1..]); }
    }
  }

  /** Resolution works left to right, so a sequence can be resolved in two parts. */
  lemma {:induction false} ResolveInParts(stack: seq<string>, a: seq<string>, b: seq<string>)
    ensures Resolve(stack, a + b) ==
            match Resolve(stack, a) case None => None case Some(mid) => Resolve(mid, b)
    decreases |a|
  {
    if a == [] {
      assert a + b == b;
    } else {
      assert (a + b)[1..] == a[1..] + b;
      var next := Push(stack, a[0]);
      if next.Some? { ResolveInParts(next.value, a[1..], b); }
    }
  }

  /** Plain components resolve to themselves. */
  lemma {:induction false} ResolvePlain(stack: seq<string>, toks: seq<string>)
    requires AllPlain(toks) && |stack| + |toks| < STACK_SIZE
    ensures Resolve(stack, toks) == Some(stack + toks)
    decreases |toks|
  {
    if toks == [] {
      assert stack + toks == stack;
    } else {
      ResolvePlain(stack + [toks[0]], toks[1..]);
      assert stack + [toks[0]] + toks[1..] == stack + toks;
    }
  }

  /** A slash separates tokens. */
  lemma {:induction false} TokensOfJoined(a: string, b: string)
    ensures Tokens(a + "/" + b) == Tokens(a) + Tokens(b)
    decreases |a|
  {
    var s := a + "/" + b;
    if a == [] {
      assert s[1..] == b;
    } else if a[0] == '/' {
      TokensOfJoined(a[1..], b);
      assert s[1..] == a[1..] + "/" + b;
    } else {
      RunOfJoined(a, b);
      TokensOfJoined(a[Run(a)..], b);
      assert s[..Run(a)] == a[..Run(a)];
      assert s[Run(a)..] == a[Run(a)..] + "/" + b;
    }
  }

  lemma {:induction false} RunOfJoined(a: string, b: string)
    ensures Run(a + "/" + b) == Run(a)
  {
    if a != [] && a[0] != '/' {
      assert (a + "/" + b)[1..] == a[1..] + "/" + b;
      RunOfJoined(a[1..], b);
    }
  }

  lemma {:induction false} RunOfComponent(tok: string)
    requires '/' !in tok
    ensures Run(tok) == |tok|
  {
    if tok != [] { RunOfComponent(tok[1..]); }
  }

  /** Rendering and tokenizing are inverse on plain stacks. */
  lemma {:induction false} TokensOfRender(stack: seq<string>)
    requires AllPlain(stack)
    ensures Tokens(Join(stack)) == stack && Tokens(Render(stack)) == stack
    decreases |stack|
  {
    if |stack| == 1 {
      RunOfComponent(stack[0]);
      assert stack[0][..|stack[0]|] == stack[0];
      assert Tokens(stack[0]) == [stack[0]];
    } else if |stack| > 1 {
      var last := stack[|stack| - 1];
      TokensOfRender(stack[..|stack| - 1]);
      TokensOfRender([last]);
      assert Join([last]) == last;
      TokensOfJoined(Join(stack[..|stack| - 1]), last);
      assert stack == stack[..|stack| - 1] + [last];
    }
    assert Render(stack)[1..] == Join(stack);
  }

  /** What a successful result is made of. */
  lemma {:induction false} ResultIsRendered(wd: Option<string>, input: string,
                                            pathMax: nat) returns (stack: seq<string>)
    requires Canonicalized(wd, input, pathMax).Ok?
    ensures AllPlain(stack) && |stack| < STACK_SIZE
    ensures Resolve([], Tokens(Combined(wd, input))) == Some(stack)
    ensures Canonicalized(wd, input, pathMax) == Ok(Render(stack))
    ensures stack != [] ==> |Render(stack)| + 1 < pathMax
  {
    TokensAreComponents(Combined(wd, input));
    ResolveKeepsPlain([], Tokens(Combined(wd, input)));
    stack := Resolve([], Tokens(Combined(wd, input))).value;
  }

  lemma {:induction false} JoinHasNoEmptyComponent(stack: seq<string>)
    requires AllPlain(stack) && stack != []
    ensures var j := Join(stack);
            && j != "" && j[0] != '/' && j[|j| - 1] != '/'
            && forall i :: 0 <= i < |j| - 1 && j[i] == '/' ==> j[i + 1] != '/'
  {
    if |stack| > 1 {
      var front, last := Join(stack[..|stack| - 1]), stack[|stack| - 1];
      JoinHasNoEmptyComponent(stack[..|stack| - 1]);
      var j := Join(stack);
      assert j == front + "/" + last;
      forall i | 0 <= i < |j| - 1 && j[i] == '/' ensures j[i + 1] != '/' {
        if i < |front| { assert j[i] == front[i]; }
      }
    }
  }

  /** Every result is in normal form. */
  lemma {:induction false} ResultIsNormal(wd: Option<string>, input: string, pathMax: nat)
    requires Canonicalized(wd, input, pathMax).Ok?
    ensures NormalForm(Canonicalized(wd, input, pathMax).path)
  {
    var stack := ResultIsRendered(wd, input, pathMax);
    TokensOfRender(stack);
    if stack != [] { JoinHasNoEmptyComponent(stack); }
    var p, j := Render(stack), Join(stack);
    forall i | 0 <= i < |p| - 1 && p[i] == '/' ensures p[i + 1] != '/' {
      if i > 0 { assert p[i] == j[i - 1]; }
    }
    forall tok | tok in Tokens(p) ensures tok != "." && tok != ".." { assert tok in stack; }
  }

  /** Canonicalizing a result again, against any working directory, changes nothing. */
  lemma {:induction false} Idempotent(wd: Option<string>, input: string, pathMax: nat, wd': Option<string>)
    requires Canonicalized(wd, input, pathMax).Ok?
    ensures Canonicalized(wd', Canonicalized(wd, input, pathMax).path, pathMax) == Canonicalized(wd, input, pathMax)
  {
    var stack := ResultIsRendered(wd, input, pathMax);
    TokensOfRender(stack);
    ResolvePlain([], stack);
    assert [] + stack == stack;
  }

  /** Canonicalizing the working directory first gives the same answer, errors included. */
  lemma {:induction false} Compositional(wd: string, input: string, pathMax: nat)
    requires Canonicalized(None, wd, pathMax).Ok?
    ensures Canonicalized(Some(Canonicalized(None, wd, pathMax).path), input, pathMax)
            == Canonicalized(Some(wd), input, pathMax)
  {
    if !(input != "" && input[0] == '/') {
      var stack := ResultIsRendered(None, wd, pathMax);
      TokensOfJoined(wd, input);
      TokensOfJoined(Render(stack), input);
      TokensOfRender(stack);
      ResolvePlain([], stack);
      assert [] + stack == stack;
      ResolveInParts([], Tokens(wd), Tokens(input));
      ResolveInParts([], stack, Tokens(input));
    }
  }

  // ---------- laws on paths ----------

  /** An absolute input ignores the working directory. */
  lemma {:induction false} AbsoluteIgnoresDirectory(wd: Option<string>, input: string, pathMax: nat)
    requires input != "" && input[0] == '/'
    ensures Canonicalized(wd, input, pathMax) == Canonicalized(None, input, pathMax)
  {
  }

  /** A relative input is taken below the working directory. */
  lemma {:induction false} RelativeIsBelow(wd: string, input: string, pathMax: nat)
    requires input == "" || input[0] != '/'
    ensures Canonicalized(Some(wd), input, pathMax) == Canonicalized(None, wd + "/" + input, pathMax)
  {
  }

  // What `p/rest` combines to, for any path that is not empty.
  lemma {:induction false} CombinedBelow(wd: Option<string>, p: string, rest: string)
    requires p != "" || wd.None?
    ensures Combined(wd, p + "/" + rest) == Combined(wd, p) + "/" + rest
  {
    if p != "" && !(wd.None? || p[0] == '/') {
      assert wd.value + "/" + (p + "/" + rest) == wd.value + "/" + p + "/" + rest;
    }
  }

  lemma {:induction false} OneToken(c: string)
    requires c != "" && '/' !in c
    ensures Tokens(c) == [c]
  {
    RunOfComponent(c);
    assert c[..|c|] == c && c[|c|..] == [];
  }

  // Going on by one component is one push on the stack.
  lemma {:induction false} OneMore(wd: Option<string>, p: string, c: string)
    requires (p != "" || wd.None?) && c != "" && '/' !in c
    ensures Resolve([], Tokens(Combined(wd, p + "/" + c))) ==
            match Resolve([], Tokens(Combined(wd, p))) case None => None case Some(stack) => Push(stack, c)
  {
    CombinedBelow(wd, p, c);
    TokensOfJoined(Combined(wd, p), c);
    OneToken(c);
    ResolveInParts([], Tokens(Combined(wd, p)), [c]);
    assert [c][1..] == [];
  }

  /** A dot, or nothing, behind a path changes nothing. */
  lemma {:induction false} DotStays(wd: Option<string>, p: string, pathMax: nat)
    requires p != "" || wd.None?
    ensures Canonicalized(wd, p + "/.", pathMax) == Canonicalized(wd, p, pathMax) == Canonicalized(wd, p + "/", pathMax)
  {
    assert p + "/." == p + "/" + "." && p + "/" == p + "/" + "";
    OneMore(wd, p, ".");
    CombinedBelow(wd, p, "");
    TokensOfJoined(Combined(wd, p), "");
    assert Tokens(Combined(wd, p)) + [] == Tokens(Combined(wd, p));
  }

  /** Repeated slashes count as one. */
  lemma {:induction false} SlashesCollapse(wd: Option<string>, p: string, rest: string, pathMax: nat)
    requires p != "" || wd.None?
    ensures Canonicalized(wd, p + "//" + rest, pathMax) == Canonicalized(wd, p + "/" + rest, pathMax)
  {
    assert p + "//" + rest == p + "/" + ("/" + rest);
    CombinedBelow(wd, p, "/" + rest);
    CombinedBelow(wd, p, rest);
    TokensOfJoined(Combined(wd, p), "/" + rest);
    TokensOfJoined(Combined(wd, p), rest);
    assert ("/" + rest)[1..] == rest;
  }

  /** Going down into a plain component and up again leads back, unless the path already has the 49 components
      the stack can hold and is good otherwise. */
  lemma {:induction false} DownAndUp(wd: Option<string>, p: string, c: string, pathMax: nat)
    requires (p != "" || wd.None?) && Plain(c)
    ensures Canonicalized(wd, p + "/" + c + "/..", pathMax) == Canonicalized(wd, p, pathMax) <==>
            !(Canonicalized(wd, p, pathMax).Ok? && |Tokens(Canonicalized(wd, p, pathMax).path)| == 49)
  {
    assert p + "/" + c + "/.." == (p + "/" + c) + "/" + "..";
    OneMore(wd, p, c);
    OneMore(wd, p + "/" + c, "..");
    hide Render, Resolve, Combined;
    TokensAreComponents(Combined(wd, p));
    ResolveKeepsPlain([], Tokens(Combined(wd, p)));
    var stack := Resolve([], Tokens(Combined(wd, p)));
    if stack.Some? {
      TokensOfRender(stack.value);
      assert (stack.value + [c])[..|stack.value|] == stack.value;
    }
    hide Tokens;
  }

  /** What comes of a path by one more plain component: the same path with it at the end, or an error when that
      has 50 components or leaves no spare byte. */
  lemma {:induction false} PlainGoesDown(wd: Option<string>, p: string, c: string, pathMax: nat)
    requires (p != "" || wd.None?) && Plain(c) && Canonicalized(wd, p, pathMax).Ok?
    ensures var q := Canonicalized(wd, p, pathMax).path;
            var q' := if q == "/" then "/" + c else q + "/" + c;
            Canonicalized(wd, p + "/" + c, pathMax) ==
            if |Tokens(q)| + 1 >= 50 || |q'| + 1 >= pathMax then Invalid else Ok(q')
  {
    hide Render, Resolve, Combined;
    var stack := ResultIsRendered(wd, p, pathMax);
    OneMore(wd, p, c);
    TokensOfRender(stack);
    RenderMore(stack, c);
    hide Tokens;
  }

  lemma {:induction false} RenderMore(stack: seq<string>, c: string)
    requires AllPlain(stack)
    ensures Render(stack + [c]) == if stack == [] then "/" + c else Render(stack) + "/" + c
    ensures Render(stack) == "/" <==> stack == []
  {
    assert (stack + [c])[..|stack|] == stack;
    if stack != [] { JoinHasNoEmptyComponent(stack); }
  }

  // Rendering with and without the last component.
  lemma {:induction false} RenderLess(stack: seq<string>) returns (c: string)
    requires AllPlain(stack) && stack != []
    ensures Plain(c) && Render(stack) == Below(Render(stack[..|stack| - 1]), c) && Render(stack) != "/"
    ensures |Render(stack[..|stack| - 1])| <= |Render(stack)|
  {
    var front := stack[..|stack| - 1];
    c := stack[|stack| - 1];
    assert stack == front + [c];
    RenderMore(front, c);
    RenderMore(stack, "");
  }

  lemma {:induction false} EmptyIsRoot()
    ensures Render([]) == "/"
  {
  }

  // The path of `c` in the directory `q`.
  function Below(q: string, c: string): string { if q == "/" then "/" + c else q + "/" + c }

  lemma {:induction false} GoneUp(wd: Option<string>, p: string, stack: seq<string>)
    requires (p != "" || wd.None?) && Resolve([], Tokens(Combined(wd, p))) == Some(stack)
    ensures Resolve([], Tokens(Combined(wd, p + "/.."))) == Some(if stack == [] then [] else stack[..|stack| - 1])
  {
    assert p + "/.." == p + "/" + "..";
    OneMore(wd, p, "..");
  }

  /** What comes of it by dot-dot: the path without its last component, `c`; the root stays the root. */
  lemma {:induction false} DotDotGoesUp(wd: Option<string>, p: string, pathMax: nat) returns (c: string)
    requires (p != "" || wd.None?) && Canonicalized(wd, p, pathMax).Ok?
    ensures var q, r := Canonicalized(wd, p, pathMax).path, Canonicalized(wd, p + "/..", pathMax);
            && r.Ok? && (q == "/" ==> r.path == "/")
            && (q != "/" ==> Plain(c) && q == if r.path == "/" then "/" + c else r.path + "/" + c)
  {
    hide Render, Resolve, Tokens, Combined, Plain;
    var stack := ResultIsRendered(wd, p, pathMax);
    GoneUp(wd, p, stack);
    EmptyIsRoot();
    if stack == [] {
      c := "";
    } else {
      c := RenderLess(stack);
    }
  }

  /** At the root, dot-dot stays there. */
  lemma {:induction false} RootIsItsParent(wd: Option<string>, rest: string, pathMax: nat)
    ensures Canonicalized(wd, "/", pathMax) == Canonicalized(wd, "/..", pathMax) == Ok("/")
    ensures Canonicalized(wd, "/../" + rest, pathMax) == Canonicalized(wd, "/" + rest, pathMax)
  {
    OneToken("..");
    assert "/"[1..] == "" && "/.."[1..] == ".." && [".."][1..] == [];
    TokensOfJoined("/..", rest);
    assert "/../" + rest == "/.." + "/" + rest;
    assert ("/" + rest)[1..] == rest;
    ResolveInParts([], [".."], Tokens(rest));
  }

  /** A plain name in a working directory ends in that name, with the directory's components before it. */
  lemma {:induction false} NameInDirectory(wd: string, c: string, pathMax: nat)
    requires Plain(c) && Canonicalized(None, wd, pathMax).Ok?
    ensures var q := Canonicalized(None, wd, pathMax).path;
            var q' := if q == "/" then "/" + c else q + "/" + c;
            Canonicalized(Some(wd), c, pathMax) ==
            if |Tokens(q)| + 1 >= 50 || |q'| + 1 >= pathMax then Invalid else Ok(q')
  {
    RelativeIsBelow(wd, c, pathMax);
    PlainGoesDown(None, wd, c, pathMax);
  }

  /** A path of plain components is its own canonical form, or has 50 components or no spare byte. */
  lemma {:induction false} PlainPath(wd: Option<string>, names: seq<string>, pathMax: nat)
    requires AllPlain(names)
    ensures Canonicalized(wd, Render(names), pathMax) ==
            if |names| >= 50 || (names != [] && |Render(names)| + 1 >= pathMax) then Invalid else Ok(Render(names))
  {
    TokensOfRender(names);
    if |names| < 50 {
      ResolvePlain([], names);
      assert [] + names == names;
    } else {
      assert names == names[..49] + names[49..];
      ResolvePlain([], names[..49]);
      assert [] + names[..49] == names[..49];
      ResolveInParts([], names[..49], names[49..]);
    }
  }
}
