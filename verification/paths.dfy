/**
 The string and path helpers the runtime uses: `join` and `basename` of the
 path library, ASCII lower-casing, and prefix/suffix tests.
 */
module Paths {

  /**
   `join(a, b)`: an empty side is dropped, otherwise the two parts are
   separated by one '/'. This is a simplification of the library's `join`,
   which also normalises '.', '..' and repeated separators.
   */
  function Join(a: string, b: string): (r: string)
    ensures a == "" ==> r == b
    ensures b == "" ==> r == a
  {
    if a == "" then b else if b == "" then a else a + "/" + b
  }

  lemma JoinAssociative(a: string, b: string, c: string)
    ensures Join(Join(a, b), c) == Join(a, Join(b, c))
  {
    if a != "" && b != "" && c != "" {
      assert (a + "/" + b) + "/" + c == a + "/" + (b + "/" + c);
    }
  }

  /** The last '/'-separated segment of a path. */
  function Basename(p: string): (r: string)
    ensures '/' !in r
    ensures |r| <= |p| && r == p[|p| - |r|..]
    ensures '/' !in p ==> r == p
  {
    if p == [] then []
    else if p[|p| - 1] == '/' then []
    else Basename(p[..|p| - 1]) + [p[|p| - 1]]
  }

  /** The base name of `dir + "/" + name` is `name` when `name` has no separator. */
  lemma {:induction false} BasenameOfJoin(dir: string, name: string)
    requires '/' !in name && name != ""
    ensures Basename(Join(dir, name)) == name
  {
    if dir != "" {
      BasenameAfterSeparator(dir + "/", name);
    }
  }

  lemma {:induction false} BasenameAfterSeparator(prefix: string, name: string)
    requires prefix != [] && prefix[|prefix| - 1] == '/'
    requires '/' !in name
    ensures Basename(prefix + name) == name
    decreases |name|
  {
    var p := prefix + name;
    if name == [] {
      assert p == prefix;
    } else {
      var init := name[..|name| - 1];
      var last := name[|name| - 1];
      assert name == init + [last];
      assert p == (prefix + init) + [last];
      assert '/' !in init by {
        assert forall i :: 0 <= i < |init| ==> init[i] == name[i];
      }
      BasenameAfterSeparator(prefix, init);
    }
  }

  /** `toLowerCase` on the ASCII letters; other characters are kept. */
  function LowerChar(c: char): char
  {
    if 'A' <= c <= 'Z' then (c as int + 32) as char else c
  }

  function ToLower(s: string): (r: string)
    ensures |r| == |s|
    ensures forall i :: 0 <= i < |s| ==> r[i] == LowerChar(s[i])
  {
    seq(|s|, i requires 0 <= i < |s| => LowerChar(s[i]))
  }

  lemma ToLowerIdempotent(s: string)
    ensures ToLower(ToLower(s)) == ToLower(s)
  {
  }

  predicate StartsWith(s: string, prefix: string)
  {
    |prefix| <= |s| && s[..|prefix|] == prefix
  }

  predicate EndsWith(s: string, suffix: string)
  {
    |suffix| <= |s| && s[|s| - |suffix|..] == suffix
  }
}
