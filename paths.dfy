/**
 * Lexical path handling from Go's path/filepath on a Unix system: Clean
 * and Join, which the handler uses to resolve a requested name against the
 * storage root. Nothing here touches a file system.
 *
 * Clean is modelled by what it computes: the path is cut into its
 * '/'-separated elements; empty elements and "." are dropped; ".." removes
 * the element before it, is dropped at the start of a rooted path, and is
 * kept at the start of a relative one; the rest is joined again with '/',
 * with a leading '/' for a rooted path and "." for an empty relative one.
 * Go works on bytes and this model on characters; since '/' and '.' are
 * ASCII and UTF-8 never uses ASCII bytes inside a multi-byte character,
 * the two agree.
 */
module Paths {

  /** The elements of p between its slashes: "" gives [""], "/a" gives ["", "a"], "a/" gives ["a", ""]. */
  function Split(p: string): (r: seq<string>)
    ensures |r| >= 1
    ensures forall i :: 0 <= i < |r| ==> '/' !in r[i]
  {
    if p == [] then [[]]
    else if p[0] == '/' then [[]] + Split(p[1..])
    else
      var t := Split(p[1..]);
      [[p[0]] + t[0]] + t[1..]
  }

  /** The elements joined with '/' between them. */
  function JoinSlash(segs: seq<string>): string
  {
    if segs == [] then "" else if |segs| == 1 then segs[0] else segs[0] + "/" + JoinSlash(segs[1..])
  }

  /** What one element does to the elements kept so far. */
  function Step(rooted: bool, stack: seq<string>, seg: string): seq<string>
  {
    if seg == "" || seg == "." then stack
    else if seg == ".." then
      if |stack| > 0 && stack[|stack| - 1] != ".." then stack[..|stack| - 1]
      else if rooted then stack
      else stack + [".."]
    else stack + [seg]
  }

  /** The elements kept after processing segs, from left to right, starting from stack. */
  function Resolve(rooted: bool, stack: seq<string>, segs: seq<string>): seq<string>
    decreases |segs|
  {
    if segs == [] then stack else Resolve(rooted, Step(rooted, stack, segs[0]), segs[1..])
  }

  function Render(rooted: bool, stack: seq<string>): string
  {
    if rooted then "/" + JoinSlash(stack)
    else if stack == [] then "."
    else JoinSlash(stack)
  }

  /** filepath.Clean: the shortest path naming the same file by purely lexical processing. */
  function Clean(p: string): string
  {
    if p == "" then "."
    else
      var rooted := p[0] == '/';
      Render(rooted, Resolve(rooted, [], Split(p)))
  }

  /**
   * filepath.Join of two elements: empty leading elements are ignored, the
   * rest joined with '/' and cleaned. The result is empty only when both
   * elements are, and is otherwise already clean.
   */
  function Join(root: string, name: string): (r: string)
    ensures r == "" <==> root == "" && name == ""
    ensures r != "" ==> Clean(r) == r
  {
    if root != "" then
      CleanNonEmpty(root + "/" + name);
      CleanIdempotent(root + "/" + name);
      Clean(root + "/" + name)
    else if name != "" then
      CleanNonEmpty(name);
      CleanIdempotent(name);
      Clean(name)
    else ""
  }

  // ---------------------------------------------------------------------------
  // The shape of what Clean keeps

  predicate IsElement(seg: string) { seg != "" && seg != "." && '/' !in seg }

  /**
   * A list of kept elements: real elements, with ".." only at the front
   * and not at all in a rooted path.
   */
  predicate Normal(rooted: bool, stack: seq<string>)
  {
    && (forall i :: 0 <= i < |stack| ==> IsElement(stack[i]))
    && (forall i, j :: 0 <= i < j < |stack| && stack[j] == ".." ==> stack[i] == "..")
    && (rooted ==> forall i :: 0 <= i < |stack| ==> stack[i] != "..")
  }

  lemma {:induction false} StepNormal(rooted: bool, stack: seq<string>, seg: string)
    requires Normal(rooted, stack) && '/' !in seg
    ensures Normal(rooted, Step(rooted, stack, seg))
  {
    var s := Step(rooted, stack, seg);
    if seg == ".." && !(|stack| > 0 && stack[|stack| - 1] != "..") && !rooted {
      assert forall i :: 0 <= i < |stack| ==> stack[i] == "..";
    }
  }

  lemma {:induction false} ResolveNormal(rooted: bool, stack: seq<string>, segs: seq<string>)
    requires Normal(rooted, stack)
    requires forall i :: 0 <= i < |segs| ==> '/' !in segs[i]
    ensures Normal(rooted, Resolve(rooted, stack, segs))
    decreases |segs|
  {
    if segs != [] {
      StepNormal(rooted, stack, segs[0]);
      ResolveNormal(rooted, Step(rooted, stack, segs[0]), segs[1..]);
    }
  }

  lemma {:induction false} ResolveAppend(rooted: bool, stack: seq<string>, a: seq<string>, b: seq<string>)
    ensures Resolve(rooted, stack, a + b) == Resolve(rooted, Resolve(rooted, stack, a), b)
    decreases |a|
  {
    if a == [] {
      assert a + b == b;
    } else {
      assert (a + b)[0] == a[0];
      assert (a + b)[1..] == a[1..] + b;
      ResolveAppend(rooted, Step(rooted, stack, a[0]), a[1..], b);
    }
  }

  // ---------------------------------------------------------------------------
  // Splitting and joining

  lemma {:induction false} SplitSlash(a: string, b: string)
    ensures Split(a + "/" + b) == Split(a) + Split(b)
    decreases |a|
  {
    var p := a + "/" + b;
    if a == [] {
      assert p == "/" + b;
      assert p[1..] == b;
    } else if a[0] == '/' {
      assert p[0] == '/';
      assert p[1..] == a[1..] + "/" + b;
      SplitSlash(a[1..], b);
    } else {
      assert p[0] == a[0];
      assert p[1..] == a[1..] + "/" + b;
      SplitSlash(a[1..], b);
      ConsFirst([a[0]], Split(a[1..]), Split(b));
    }
  }

  /** Prefixing the first element of x + y, with x non-empty, is prefixing the first element of x. */
  lemma ConsFirst(c: string, x: seq<string>, y: seq<string>)
    requires x != []
    ensures [c + (x + y)[0]] + (x + y)[1..] == ([c + x[0]] + x[1..]) + y
  {
    assert (x + y)[0] == x[0];
    assert (x + y)[1..] == x[1..] + y;
  }

  lemma {:induction false} SplitElement(s: string)
    requires '/' !in s
    ensures Split(s) == [s]
    decreases |s|
  {
    if s != [] {
      assert '/' !in s[1..] by {
        forall i | 0 <= i < |s[1..]| ensures s[1..][i] != '/' { assert s[1..][i] == s[i + 1]; }
      }
      SplitElement(s[1..]);
      assert [s[0]] + s[1..] == s;
    }
  }

  lemma {:induction false} JoinSlashNonEmpty(segs: seq<string>)
    requires segs != [] && segs[0] != ""
    ensures JoinSlash(segs) != "" && JoinSlash(segs)[0] == segs[0][0]
  {
    if |segs| > 1 {
      assert JoinSlash(segs) == segs[0] + "/" + JoinSlash(segs[1..]);
    }
  }

  lemma {:induction false} SplitJoinSlash(segs: seq<string>)
    requires segs != [] && forall i :: 0 <= i < |segs| ==> '/' !in segs[i]
    ensures Split(JoinSlash(segs)) == segs
    decreases |segs|
  {
    SplitElement(segs[0]);
    if |segs| > 1 {
      SplitSlash(segs[0], JoinSlash(segs[1..]));
      SplitJoinSlash(segs[1..]);
      assert [segs[0]] + segs[1..] == segs;
    }
  }

  // ---------------------------------------------------------------------------
  // Properties of Clean

  /** Resolving elements already in normal form keeps them as they are. */
  lemma {:induction false} ResolveKeepsNormal(rooted: bool, stack: seq<string>, segs: seq<string>)
    requires Normal(rooted, stack + segs)
    ensures Resolve(rooted, stack, segs) == stack + segs
    decreases |segs|
  {
    if segs == [] {
      assert stack + segs == stack;
    } else {
      var all := stack + segs;
      assert all[|stack|] == segs[0];
      assert IsElement(segs[0]);
      if segs[0] == ".." {
        assert !rooted;
        assert forall i :: 0 <= i < |stack| ==> stack[i] == all[i] == "..";
      }
      assert Step(rooted, stack, segs[0]) == stack + [segs[0]];
      assert stack + [segs[0]] + segs[1..] == all;
      ResolveKeepsNormal(rooted, stack + [segs[0]], segs[1..]);
    }
  }

  lemma {:induction false} RenderStart(rooted: bool, stack: seq<string>)
    requires Normal(rooted, stack)
    ensures Render(rooted, stack) != ""
    ensures Render(rooted, stack)[0] == '/' <==> rooted
  {
    if !rooted && stack != [] {
      assert IsElement(stack[0]);
      JoinSlashNonEmpty(stack);
    }
  }

  /** The elements of a rendered path resolve back to the same elements. */
  lemma {:induction false} CleanRender(rooted: bool, stack: seq<string>)
    requires Normal(rooted, stack)
    ensures Clean(Render(rooted, stack)) == Render(rooted, stack)
  {
    var p := Render(rooted, stack);
    RenderStart(rooted, stack);
    assert p[0] == '/' <==> rooted;
    assert forall i :: 0 <= i < |stack| ==> '/' !in stack[i];
    assert stack + [] == stack;
    if rooted {
      assert p == "" + "/" + JoinSlash(stack);
      SplitSlash("", JoinSlash(stack));
      if stack == [] {
        CleanSlash();
      } else {
        SplitJoinSlash(stack);
        assert Split(p) == [[]] + stack;
        ResolveKeepsNormal(rooted, [], stack);
        assert [] + stack == stack;
      }
    } else if stack == [] {
      CleanDot();
    } else {
      SplitJoinSlash(stack);
      ResolveKeepsNormal(rooted, [], stack);
      assert [] + stack == stack;
    }
  }

  /** What Clean returns is never empty, is rooted exactly when its input is, and has its elements in normal form. */
  lemma {:induction false} CleanShape(p: string)
    requires p != ""
    ensures var rooted := p[0] == '/';
      var stack := Resolve(rooted, [], Split(p));
      Normal(rooted, stack) && Clean(p) == Render(rooted, stack)
  {
    var rooted := p[0] == '/';
    ResolveNormal(rooted, [], Split(p));
  }

  lemma {:induction false} CleanDot()
    ensures Clean(".") == "."
  {
    SplitElement(".");
    assert ["."][1..] == [];
    assert Resolve(false, [], ["."]) == [];
  }

  lemma {:induction false} CleanSlash()
    ensures Clean("/") == "/"
  {
    assert "/" == "" + "/" + "";
    SplitSlash("", "");
    assert Split("/") == ["", ""];
    assert Resolve(true, [], ["", ""]) == Resolve(true, [], [""]) == [];
  }

  /** Clean never returns the empty path. */
  lemma {:induction false} CleanNonEmpty(p: string)
    ensures Clean(p) != ""
  {
    if p != "" {
      CleanShape(p);
      RenderStart(p[0] == '/', Resolve(p[0] == '/', [], Split(p)));
    }
  }

  /** Cleaning is idempotent: a cleaned path is clean. */
  lemma {:induction false} CleanIdempotent(p: string)
    ensures Clean(Clean(p)) == Clean(p)
  {
    if p == "" {
      CleanDot();
    } else {
      var rooted := p[0] == '/';
      CleanShape(p);
      CleanRender(rooted, Resolve(rooted, [], Split(p)));
    }
  }

  /** Distinct kept elements render as distinct paths. */
  lemma {:induction false} RenderInjective(rooted: bool, s1: seq<string>, s2: seq<string>)
    requires Normal(rooted, s1) && Normal(rooted, s2)
    requires Render(rooted, s1) == Render(rooted, s2)
    ensures s1 == s2
  {
    assert forall i :: 0 <= i < |s1| ==> '/' !in s1[i];
    assert forall i :: 0 <= i < |s2| ==> '/' !in s2[i];
    if s1 != [] { assert IsElement(s1[0]); JoinSlashNonEmpty(s1); }
    if s2 != [] { assert IsElement(s2[0]); JoinSlashNonEmpty(s2); }
    if rooted {
      assert ("/" + JoinSlash(s1))[1..] == JoinSlash(s1);
      assert ("/" + JoinSlash(s2))[1..] == JoinSlash(s2);
      if s1 != [] && s2 != [] {
        SplitJoinSlash(s1);
        SplitJoinSlash(s2);
      }
    } else if s1 != [] && s2 != [] {
      SplitJoinSlash(s1);
      SplitJoinSlash(s2);
    } else if s1 != [] {
      SplitElement(".");
      SplitJoinSlash(s1);
      assert false;
    } else if s2 != [] {
      SplitElement(".");
      SplitJoinSlash(s2);
      assert false;
    }
  }

  // ---------------------------------------------------------------------------
  // Join against a clean root

  predicate Rooted(p: string) { p != "" && p[0] == '/' }

  /** The elements Clean keeps of a non-empty path. */
  function Elements(p: string): seq<string>
    requires p != ""
  {
    Resolve(Rooted(p), [], Split(p))
  }

  /** A rendered path keeps its rootedness and its elements when read back. */
  lemma {:induction false} ElementsOfRender(rooted: bool, stack: seq<string>)
    requires Normal(rooted, stack)
    ensures Render(rooted, stack) != "" && Rooted(Render(rooted, stack)) == rooted
    ensures Elements(Render(rooted, stack)) == stack
  {
    var p := Render(rooted, stack);
    RenderStart(rooted, stack);
    CleanRender(rooted, stack);
    CleanShape(p);
    RenderInjective(rooted, stack, Elements(p));
  }

  /** Joining a name to a non-empty root resolves the name's elements on top of the root's. */
  lemma {:induction false} JoinElements(root: string, name: string)
    requires root != ""
    ensures var r := Rooted(root);
      var stack := Resolve(r, Elements(root), Split(name));
      Normal(r, stack) && Join(root, name) == Render(r, stack)
  {
    var r := Rooted(root);
    var p := root + "/" + name;
    assert p[0] == root[0];
    SplitSlash(root, name);
    ResolveAppend(r, [], Split(root), Split(name));
    ResolveNormal(r, [], Split(root));
    ResolveNormal(r, Elements(root), Split(name));
  }

  /**
   * Joining a name to a clean root gives the root back exactly when the
   * name's elements leave the root's elements unchanged.
   */
  lemma {:induction false} JoinGivesRoot(root: string, name: string)
    requires root != "" && Clean(root) == root
    ensures Join(root, name) == root <==> Resolve(Rooted(root), Elements(root), Split(name)) == Elements(root)
  {
    var r := Rooted(root);
    JoinElements(root, name);
    CleanShape(root);
    var stack := Resolve(r, Elements(root), Split(name));
    if Join(root, name) == root {
      RenderInjective(r, stack, Elements(root));
    }
  }

  /**
   * For a single element (a name without '/'), joining it to a clean root
   * gives the root back only for "", "." and, when the root is "/", "..".
   */
  lemma {:induction false} JoinElementGivesRoot(root: string, name: string)
    requires root != "" && Clean(root) == root && '/' !in name
    ensures Join(root, name) == root <==> name == "" || name == "." || (name == ".." && root == "/")
  {
    var r := Rooted(root);
    var h := Elements(root);
    JoinGivesRoot(root, name);
    SplitElement(name);
    assert [name][1..] == [];
    assert Resolve(r, h, [name]) == Step(r, h, name);
    CleanShape(root);
    StepKeeps(r, h, name);
    RootIsSlash(root);
  }

  /** One element leaves a normal stack as it was only when it is "", "." or a ".." at the top of "/". */
  lemma {:induction false} StepKeeps(r: bool, h: seq<string>, name: string)
    requires Normal(r, h)
    ensures Step(r, h, name) == h <==> name == "" || name == "." || (name == ".." && r && h == [])
  {
    if name == ".." {
      if |h| > 0 && h[|h| - 1] != ".." {
        assert |Step(r, h, name)| < |h|;
      } else if r && h != [] {
        assert false;
      } else if !r {
        assert |Step(r, h, name)| > |h|;
      }
    } else if name != "" && name != "." {
      assert |Step(r, h, name)| > |h|;
    }
  }

  /** A clean rooted path with no elements is "/". */
  lemma {:induction false} RootIsSlash(root: string)
    requires root != "" && Clean(root) == root
    ensures Rooted(root) && Elements(root) == [] <==> root == "/"
  {
    if root == "/" {
      CleanSlash();
      ElementsOfRender(true, []);
      assert Render(true, []) == "/";
    }
    if Rooted(root) && Elements(root) == [] {
      CleanShape(root);
      assert Render(true, []) == "/";
    }
  }

  /** The elements left after dropping every "" and ".". */
  function Kept(segs: seq<string>): (r: seq<string>)
    ensures |r| <= |segs|
  {
    if segs == [] then []
    else if segs[0] == "" || segs[0] == "." then Kept(segs[1..])
    else [segs[0]] + Kept(segs[1..])
  }

  lemma {:induction false} KeptEmpty(segs: seq<string>)
    ensures Kept(segs) == [] <==> forall i :: 0 <= i < |segs| ==> segs[i] == "" || segs[i] == "."
  {
    if segs != [] {
      KeptEmpty(segs[1..]);
      assert forall i :: 1 <= i < |segs| ==> segs[i] == segs[1..][i - 1];
    }
  }

  /** Without "..", resolving only appends the real elements. */
  lemma {:induction false} ResolveWithoutDotDot(rooted: bool, stack: seq<string>, segs: seq<string>)
    requires forall i :: 0 <= i < |segs| ==> segs[i] != ".."
    ensures Resolve(rooted, stack, segs) == stack + Kept(segs)
    decreases |segs|
  {
    if segs == [] {
      assert stack + [] == stack;
    } else {
      assert forall i :: 0 <= i < |segs[1..]| ==> segs[1..][i] == segs[i + 1];
      ResolveWithoutDotDot(rooted, Step(rooted, stack, segs[0]), segs[1..]);
      if !(segs[0] == "" || segs[0] == ".") {
        assert stack + [segs[0]] + Kept(segs[1..]) == stack + ([segs[0]] + Kept(segs[1..]));
      }
    }
  }

  /**
   * A name none of whose elements is ".." joins to a clean root to give the
   * root back exactly when all its elements are empty or ".".
   */
  lemma {:induction false} JoinWithoutDotDotGivesRoot(root: string, name: string)
    requires root != "" && Clean(root) == root
    requires forall i :: 0 <= i < |Split(name)| ==> Split(name)[i] != ".."
    ensures Join(root, name) == root <==> forall i :: 0 <= i < |Split(name)| ==> Split(name)[i] == "" || Split(name)[i] == "."
  {
    JoinGivesRoot(root, name);
    ResolveWithoutDotDot(Rooted(root), Elements(root), Split(name));
    KeptEmpty(Split(name));
    var h := Elements(root);
    assert h + Kept(Split(name)) == h <==> Kept(Split(name)) == [] by {
      if h + Kept(Split(name)) == h { assert |h + Kept(Split(name))| == |h|; }
    }
  }

  /** Plain elements are pushed one by one. */
  lemma {:induction false} PushPlain(rooted: bool, h: seq<string>, a: string, b: string)
    requires Normal(rooted, h) && IsElement(a) && IsElement(b) && a != ".." && b != ".."
    ensures Resolve(rooted, h, [a]) == h + [a] && Normal(rooted, h + [a])
    ensures Resolve(rooted, h, [a, b]) == h + [a, b] && Normal(rooted, h + [a, b])
    ensures Step(rooted, h + [a, b], "..") == h + [a]
  {
    assert [a, b][1..] == [b];
    assert [b][1..] == [];
    assert [a][1..] == [];
    assert Step(rooted, h, a) == h + [a];
    assert Step(rooted, h + [a], b) == h + [a] + [b] == h + [a, b];
    assert Resolve(rooted, h + [a], [b]) == Resolve(rooted, h + [a, b], []);
    assert Resolve(rooted, h, [a]) == Resolve(rooted, h + [a], []);
    StepNormal(rooted, h, a);
    StepNormal(rooted, h + [a], b);
  }

  /** The path a/b, for plain elements a and b, has exactly those two elements. */
  lemma {:induction false} SplitPair(a: string, b: string)
    requires IsElement(a) && IsElement(b)
    ensures Split(a + "/" + b) == [a, b]
  {
    SplitSlash(a, b);
    SplitElement(a);
    SplitElement(b);
  }

  /** After x is rendered, joining ".." resolves ".." on top of x. */
  lemma {:induction false} JoinDotDotOnto(rooted: bool, x: seq<string>)
    requires Normal(rooted, x)
    ensures Join(Render(rooted, x), "..") == Render(rooted, Step(rooted, x, ".."))
  {
    ElementsOfRender(rooted, x);
    JoinElements(Render(rooted, x), "..");
    SplitElement("..");
    assert [".."][1..] == [];
  }

  /**
   * Joining two plain elements a/b to a base and then ".." to the result
   * gives the base joined with a alone: ".." leaves the directory b.
   */
  lemma {:induction false} JoinParent(base: string, a: string, b: string)
    requires IsElement(a) && IsElement(b) && a != ".." && b != ".."
    ensures Join(Join(base, a + "/" + b), "..") == Join(base, a)
    ensures Join(base, a + "/" + b) != "" && Clean(Join(base, a + "/" + b)) == Join(base, a + "/" + b)
    ensures Join(base, a + "/" + b) != "/"
  {
    var ab := a + "/" + b;
    SplitPair(a, b);
    SplitElement(a);
    var r: bool;
    var h: seq<string>;
    if base != "" {
      r := Rooted(base);
      h := Elements(base);
      CleanShape(base);
      JoinElements(base, ab);
      JoinElements(base, a);
    } else {
      r := false;
      h := [];
      assert ab[0] == a[0];
    }
    PushPlain(r, h, a, b);
    ElementsOfRender(r, h + [a, b]);
    CleanRender(r, h + [a, b]);
    JoinDotDotOnto(r, h + [a, b]);
    if Join(base, ab) == "/" {
      ElementsOfSlash();
      assert false;
    }
  }

  lemma {:induction false} ElementsOfSlash()
    ensures Elements("/") == []
  {
    assert "/" == "" + "/" + "";
    SplitSlash("", "");
    assert Split("/") == ["", ""];
    assert Resolve(true, [], ["", ""]) == Resolve(true, [], [""]) == [];
  }

  /** A plain element followed by ".." joins to a clean root to give the root back. */
  lemma {:induction false} JoinUpAndBack(root: string, a: string)
    requires root != "" && Clean(root) == root
    requires IsElement(a) && a != ".."
    ensures Join(root, a + "/..") == root
  {
    var r := Rooted(root);
    var h := Elements(root);
    CleanShape(root);
    SplitSlash(a, "..");
    SplitElement(a);
    SplitElement("..");
    assert a + "/.." == a + "/" + "..";
    assert Split(a + "/..") == [a, ".."];
    assert [a, ".."][1..] == [".."];
    assert [".."][1..] == [];
    assert Step(r, h, a) == h + [a];
    assert (h + [a])[..|h|] == h;
    assert Resolve(r, h, [a, ".."]) == Resolve(r, h, []) == h;
    JoinGivesRoot(root, a + "/..");
  }
}
