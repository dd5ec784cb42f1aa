/**
  Small string helpers the backup script relies on: Python's `" ".join`,
  `os.path.join` and `os.path.basename` on POSIX paths, and an optional value
  standing for Python's `None`.
 */
module Text {

  /** An optional value; `None` stands for Python's `None`. */
  datatype Option<+T> = None | Some(value: T)

  /** `s` ends with `suffix`. */
  predicate EndsWith(s: string, suffix: string) {
    |suffix| <= |s| && s[|s| - |suffix|..] == suffix
  }

  lemma EndsWithExtend(s: string, suffix: string, t: string)
    requires EndsWith(s, suffix)
    ensures EndsWith(s + t, suffix + t)
  {
    assert (s + t)[|s + t| - |suffix + t|..] == s[|s| - |suffix|..] + t;
  }

  lemma EndsWithPrepend(t: string, s: string, suffix: string)
    requires EndsWith(s, suffix)
    ensures EndsWith(t + s, suffix)
  {
    assert (t + s)[|t + s| - |suffix|..] == s[|s| - |suffix|..];
  }

  lemma EndsWithConcat(s: string, t: string)
    ensures EndsWith(s + t, t)
  {
    assert (s + t)[|s + t| - |t|..] == t;
  }

  /** Python's `" ".join(parts)`: the words separated by single spaces. */
  function JoinWords(parts: seq<string>): (r: string)
    ensures parts == [] ==> r == ""
    ensures |parts| > 0 ==> parts[0] <= r
    decreases |parts|
  {
    if |parts| == 0 then ""
    else if |parts| == 1 then parts[0]
    else parts[0] + " " + JoinWords(parts[1..])
  }

  /** The joined string ends with the last word, preceded by a space when there are several. */
  lemma {:induction false} JoinWordsEndsWithLast(parts: seq<string>)
    requires |parts| > 0
    ensures EndsWith(JoinWords(parts), parts[|parts| - 1])
    ensures |parts| > 1 ==> EndsWith(JoinWords(parts), " " + parts[|parts| - 1])
    decreases |parts|
  {
    if |parts| == 1 {
      assert JoinWords(parts)[|parts[0]| - |parts[0]|..] == parts[0];
    } else {
      var last := parts[|parts| - 1];
      var rest := JoinWords(parts[1..]);
      assert JoinWords(parts) == (parts[0] + " ") + rest;
      assert parts[1..][|parts[1..]| - 1] == last;
      JoinWordsEndsWithLast(parts[1..]);
      EndsWithPrepend(parts[0] + " ", rest, last);
      if |parts| > 2 {
        EndsWithPrepend(parts[0] + " ", rest, " " + last);
      } else {
        assert rest == last;
        assert JoinWords(parts) == parts[0] + (" " + last);
        assert JoinWords(parts)[|JoinWords(parts)| - |" " + last|..] == " " + last;
      }
    }
  }

  /** Joining two non-empty word lists puts one space between their joins: every word survives. */
  lemma {:induction false} JoinWordsAppend(a: seq<string>, b: seq<string>)
    requires a != [] && b != []
    ensures JoinWords(a + b) == JoinWords(a) + " " + JoinWords(b)
    decreases |a|
  {
    assert (a + b)[0] == a[0];
    if |a| == 1 {
      assert (a + b)[1..] == b;
    } else {
      assert (a + b)[1..] == a[1..] + b;
      JoinWordsAppend(a[1..], b);
    }
  }

  /**
    `os.path.join(a, b)` for POSIX paths: an absolute `b` replaces `a`; otherwise
    a separator is inserted unless `a` is empty or already ends with one.
   */
  function PathJoin(a: string, b: string): string {
    if |b| > 0 && b[0] == '/' then b
    else if a == [] || a[|a| - 1] == '/' then a + b
    else a + "/" + b
  }

  /** Python's `p.rfind('/')`: the index of the last `/` in `p`, or -1 when there is none. */
  function LastSeparator(p: string): (r: int)
    ensures -1 <= r < |p|
    decreases |p|
  {
    if p == [] then -1
    else if p[|p| - 1] == '/' then |p| - 1
    else LastSeparator(p[..|p| - 1])
  }

  /** `LastSeparator` finds a `/`, and no `/` follows it. */
  lemma {:induction false} LastSeparatorIsLast(p: string)
    ensures LastSeparator(p) >= 0 ==> p[LastSeparator(p)] == '/'
    ensures forall i :: LastSeparator(p) < i < |p| ==> p[i] != '/'
    decreases |p|
  {
    if p != [] && p[|p| - 1] != '/' {
      var init := p[..|p| - 1];
      LastSeparatorIsLast(init);
      assert forall i :: 0 <= i < |init| ==> init[i] == p[i];
    }
  }

  /** `os.path.basename(p)`: everything after the last `/` of `p`. */
  function Basename(p: string): string {
    p[LastSeparator(p) + 1..]
  }

  /**
    The basename is the last segment of the path: it holds no `/`, ends the
    path, and is preceded by a `/` unless it is the whole path.
   */
  lemma BasenameIsLastSegment(p: string)
    ensures '/' !in Basename(p)
    ensures EndsWith(p, Basename(p))
    ensures |Basename(p)| < |p| ==> p[|p| - |Basename(p)| - 1] == '/'
  {
    LastSeparatorIsLast(p);
    var k := LastSeparator(p) + 1;
    var r := Basename(p);
    assert forall j :: 0 <= j < |r| ==> r[j] == p[k + j];
  }

  /** Whatever precedes a final path segment `b`, the basename is `b`. */
  lemma {:induction false} BasenameAfterSeparator(x: string, b: string)
    requires '/' !in b
    requires x == [] || x[|x| - 1] == '/'
    ensures Basename(x + b) == b
    decreases |b|
  {
    if b == [] {
      assert x + b == x;
    } else {
      var p := x + b;
      assert p[|p| - 1] == b[|b| - 1];
      assert p[..|p| - 1] == x + b[..|b| - 1];
      BasenameAfterSeparator(x, b[..|b| - 1]);
      assert b[..|b| - 1] + [b[|b| - 1]] == b;
    }
  }

  /** Joining a directory with a plain file name and taking the basename gives the name back. */
  lemma BasenameOfPathJoin(a: string, b: string)
    requires '/' !in b
    ensures Basename(PathJoin(a, b)) == b
  {
    assert |b| > 0 ==> b[0] in b;
    if a == [] || a[|a| - 1] == '/' {
      BasenameAfterSeparator(a, b);
    } else {
      assert a + "/" + b == (a + "/") + b;
      BasenameAfterSeparator(a + "/", b);
    }
  }
}
