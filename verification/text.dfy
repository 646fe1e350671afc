/**
 * String helpers with the semantics of Go's `strings` package: `Split` and
 * `Join` on a non-empty separator, and `HasPrefix`. Strings here are
 * sequences of characters where Go's are bytes; for the ASCII separators
 * used ("/", " - ", ":") matching by character and by byte give the same
 * pieces, since UTF-8 never encodes another character with an ASCII byte.
 */
module Text {

  predicate HasPrefix(s: string, prefix: string) {
    |prefix| <= |s| && s[..|prefix|] == prefix
  }

  /** strings.Split(s, sep): the pieces between non-overlapping occurrences of sep, found left to right. */
  function Split(s: string, sep: string): (parts: seq<string>)
    requires |sep| > 0
    ensures |parts| >= 1
    decreases |s|
  {
    if |s| == 0 then [""]
    else if HasPrefix(s, sep) then [""] + Split(s[|sep|..], sep)
    else
      var rest := Split(s[1..], sep);
      [[s[0]] + rest[0]] + rest[1..]
  }

  /** strings.Join(parts, sep). */
  function Join(parts: seq<string>, sep: string): string
  {
    if |parts| == 0 then ""
    else if |parts| == 1 then parts[0]
    else parts[0] + sep + Join(parts[1..], sep)
  }

  /** Gluing a string onto the first piece of a list glues it onto the front of the join. */
  lemma JoinGlued(x: string, rest: seq<string>, sep: string)
    requires |rest| >= 1
    ensures Join([x + rest[0]] + rest[1..], sep) == x + Join(rest, sep)
  {
    var parts := [x + rest[0]] + rest[1..];
    if |rest| > 1 {
      assert parts[0] == x + rest[0] && parts[1..] == rest[1..];
      assert Join(parts, sep) == x + rest[0] + sep + Join(rest[1..], sep);
    }
  }

  /** Joining the pieces of a split with the same separator gives back the input. */
  lemma {:induction false} JoinSplit(s: string, sep: string)
    requires |sep| > 0
    ensures Join(Split(s, sep), sep) == s
    decreases |s|
  {
    if |s| == 0 {
    } else if HasPrefix(s, sep) {
      var rest := Split(s[|sep|..], sep);
      JoinSplit(s[|sep|..], sep);
      assert Split(s, sep) == [""] + rest;
      assert ([""] + rest)[1..] == rest;
      assert Join([""] + rest, sep) == "" + sep + Join(rest, sep);
      assert s == sep + s[|sep|..];
    } else {
      var rest := Split(s[1..], sep);
      JoinSplit(s[1..], sep);
      assert Split(s, sep) == [[s[0]] + rest[0]] + rest[1..];
      JoinGlued([s[0]], rest, sep);
      assert s == [s[0]] + s[1..];
    }
  }

  /** A string without the one-character separator is a single piece. */
  lemma {:induction false} SplitWithoutSeparator(s: string, c: char)
    requires c !in s
    ensures Split(s, [c]) == [s]
    decreases |s|
  {
    if |s| > 0 {
      assert !HasPrefix(s, [c]) by { assert s[..1] == [s[0]]; assert s[0] in s; }
      assert c !in s[1..] by {
        forall i | 0 <= i < |s[1..]| ensures s[1..][i] != c { assert s[1..][i] == s[i + 1]; }
      }
      SplitWithoutSeparator(s[1..], c);
      assert [s[0]] + s[1..] == s;
    }
  }

  /** Split on one character, one character at a time. */
  lemma SplitCons(x: char, t: string, c: char)
    ensures Split([x] + t, [c]) == if x == c then [""] + Split(t, [c])
                                   else [[x] + Split(t, [c])[0]] + Split(t, [c])[1..]
  {
    var s := [x] + t;
    assert s[..1] == [x] && s[0] == x && s[1..] == t;
    assert HasPrefix(s, [c]) <==> x == c;
  }

  /** Splitting on one character is local: a separator between a and b splits the two halves apart. */
  lemma {:induction false} SplitAround(a: string, c: char, b: string)
    ensures Split(a + [c] + b, [c]) == Split(a, [c]) + Split(b, [c])
    decreases |a|
  {
    if |a| == 0 {
      assert a + [c] + b == [c] + b;
      SplitCons(c, b, c);
    } else {
      var x, t := a[0], a[1..];
      var rest := t + [c] + b;
      assert a == [x] + t && a + [c] + b == [x] + rest;
      SplitAround(t, c, b);
      SplitCons(x, rest, c);
      SplitCons(x, t, c);
      GlueFront(x, Split(t, [c]), Split(b, [c]));
    }
  }

  /** The list algebra behind SplitAround: gluing onto the first piece commutes with appending pieces. */
  lemma GlueFront(x: char, inner: seq<string>, tail: seq<string>)
    requires |inner| >= 1
    ensures [""] + (inner + tail) == ([""] + inner) + tail
    ensures [[x] + (inner + tail)[0]] + (inner + tail)[1..] == ([[x] + inner[0]] + inner[1..]) + tail
  {
    assert (inner + tail)[0] == inner[0];
    assert (inner + tail)[1..] == inner[1..] + tail;
  }

  /** Splitting the join of separator-free pieces gives back the pieces. */
  lemma {:induction false} SplitJoin(parts: seq<string>, c: char)
    requires |parts| >= 1
    requires forall i :: 0 <= i < |parts| ==> c !in parts[i]
    ensures Split(Join(parts, [c]), [c]) == parts
    decreases |parts|
  {
    SplitWithoutSeparator(parts[0], c);
    if |parts| > 1 {
      SplitJoin(parts[1..], c);
      SplitAround(parts[0], c, Join(parts[1..], [c]));
      assert [parts[0]] + parts[1..] == parts;
    }
  }
}
