/**
 * Go's path.Clean, as the lexical algorithm it documents: split on '/',
 * drop empty and "." elements, let ".." remove the name before it (or vanish
 * at the root of a rooted path), and join again.
 */
module GoPath {
  import opened Text

  /** An element that survives cleaning a rooted path: a real name, no slash. */
  predicate IsName(e: string) {
    e != "" && e != "." && e != ".." && '/' !in e
  }

  /** An element cleaning never leaves behind: not empty and not ".". */
  predicate Kept(e: string) { e != "" && e != "." }

  /** Applies the elements, left to right, to the stack of names resolved so far. */
  function Resolve(stack: seq<string>, elems: seq<string>, rooted: bool): (r: seq<string>)
    ensures |r| <= |stack| + |elems|
    ensures (forall i :: 0 <= i < |stack| ==> Kept(stack[i])) ==> forall i :: 0 <= i < |r| ==> Kept(r[i])
    decreases |elems|
  {
    if |elems| == 0 then stack
    else
      var e := elems[0];
      var next :=
        if e == "" || e == "." then stack
        else if e == ".." then
          if |stack| > 0 && stack[|stack| - 1] != ".." then stack[..|stack| - 1]
          else if rooted then stack
          else stack + [".."]
        else stack + [e];
      Resolve(next, elems[1..], rooted)
  }

  /** The elements of the cleaned form of a non-empty path. */
  function CleanElements(p: string): (elems: seq<string>)
    requires |p| > 0
    ensures |elems| <= |Split(p, "/")|
    ensures forall i :: 0 <= i < |elems| ==> Kept(elems[i])
  {
    Resolve([], Split(p, "/"), p[0] == '/')
  }

  /** path.Clean. */
  function Clean(p: string): (c: string)
    ensures |c| > 0
    ensures |p| > 0 && p[0] == '/' ==> c[0] == '/'
  {
    if |p| == 0 then "."
    else
      var body := Join(CleanElements(p), "/");
      if p[0] == '/' then "/" + body
      else if |body| == 0 then "."
      else body
  }

  /** No piece of a split contains the separator. */
  lemma {:induction false} SplitPiecesFree(s: string, c: char)
    ensures forall i :: 0 <= i < |Split(s, [c])| ==> c !in Split(s, [c])[i]
    decreases |s|
  {
    if |s| > 0 {
      SplitPiecesFree(s[1..], c);
      if HasPrefix(s, [c]) {
        assert s[|[c]|..] == s[1..];
      } else {
        assert s[..1] == [s[0]];
        var rest := Split(s[1..], [c]);
        assert c !in rest[0];
        assert c !in [s[0]] + rest[0];
      }
    }
  }

  /** Resolving a rooted path onto names yields names only. */
  lemma {:induction false} ResolveRootedNames(stack: seq<string>, elems: seq<string>)
    requires forall i :: 0 <= i < |stack| ==> IsName(stack[i])
    requires forall i :: 0 <= i < |elems| ==> '/' !in elems[i]
    ensures forall i :: 0 <= i < |Resolve(stack, elems, true)| ==> IsName(Resolve(stack, elems, true)[i])
    decreases |elems|
  {
    if |elems| > 0 {
      var e := elems[0];
      var next :=
        if e == "" || e == "." then stack
        else if e == ".." then
          if |stack| > 0 && stack[|stack| - 1] != ".." then stack[..|stack| - 1] else stack
        else stack + [e];
      assert '/' !in e;
      assert forall i :: 0 <= i < |next| ==> IsName(next[i]);
      assert Resolve(stack, elems, true) == Resolve(next, elems[1..], true);
      ResolveRootedNames(next, elems[1..]);
    }
  }

  /** A cleaned rooted path is "/" followed by names: no "..", "." or empty element is left. */
  lemma CleanRootedNames(p: string)
    requires |p| > 0 && p[0] == '/'
    ensures Clean(p) == "/" + Join(CleanElements(p), "/")
    ensures forall i :: 0 <= i < |CleanElements(p)| ==> IsName(CleanElements(p)[i])
  {
    SplitPiecesFree(p, '/');
    ResolveRootedNames([], Split(p, "/"));
  }

  /** Names pass through resolution unchanged. */
  lemma {:induction false} ResolveNames(stack: seq<string>, names: seq<string>, rooted: bool)
    requires forall i :: 0 <= i < |names| ==> IsName(names[i])
    ensures Resolve(stack, names, rooted) == stack + names
    decreases |names|
  {
    if |names| > 0 {
      ResolveNames(stack + [names[0]], names[1..], rooted);
      assert stack + [names[0]] + names[1..] == stack + names;
    }
  }

  /** Cleaning a cleaned rooted path changes nothing. */
  lemma CleanRootedIdempotent(p: string)
    requires |p| > 0 && p[0] == '/'
    ensures Clean(Clean(p)) == Clean(p)
  {
    CleanRootedNames(p);
    var names := CleanElements(p);
    var c := Clean(p);
    var body := Join(names, "/");
    assert c == "/" + body;
    assert HasPrefix(c, "/");
    assert c[1..] == body;
    assert Split(c, "/") == [""] + Split(body, "/");
    if |names| == 0 {
      assert Split(body, "/") == [""];
      assert Split(c, "/") == ["", ""];
      assert Resolve([], ["", ""], true) == Resolve([], [""], true) == [];
      assert CleanElements(c) == [];
    } else {
      forall i | 0 <= i < |names| ensures '/' !in names[i] {
        assert IsName(names[i]);
      }
      SplitJoin(names, '/');
      ResolveNames([], names, true);
      assert Split(c, "/") == [""] + names;
      assert ([""] + names)[1..] == names;
      assert CleanElements(c) == Resolve([], names, true) == names;
    }
    assert c[0] == '/';
    assert Clean(c) == "/" + Join(CleanElements(c), "/");
  }
}
