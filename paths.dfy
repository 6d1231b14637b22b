/**
 * The POSIX path functions tagcli calls: `os.path.splitext`,
 * `os.path.dirname` and `os.path.join` with two parts. `Basename` is not
 * called by tagcli; it serves only to state facts about `splitext` and `join`.
 */
module Paths {

  predicate AllChar(s: string, c: char) { forall i :: 0 <= i < |s| ==> s[i] == c }

  /** `s.rfind(c)`: the index of the last `c` in `s`, or -1. */
  function LastIndex(s: string, c: char): (i: int)
    ensures -1 <= i < |s|
  {
    if s == [] then -1
    else if s[|s| - 1] == c then |s| - 1
    else LastIndex(s[..|s| - 1], c)
  }

  /** `LastIndex` finds a `c`, if any, and there is no `c` after it. */
  lemma {:induction false} LastIndexSpec(s: string, c: char)
    ensures LastIndex(s, c) >= 0 ==> s[LastIndex(s, c)] == c
    ensures forall j :: LastIndex(s, c) < j < |s| ==> s[j] != c
    decreases |s|
  {
    if s != [] && s[|s| - 1] != c {
      var t := s[..|s| - 1];
      LastIndexSpec(t, c);
      assert forall j :: 0 <= j < |t| ==> t[j] == s[j];
    }
  }

  /** The last path component: everything after the last '/'. */
  function Basename(p: string): string
  {
    p[LastIndex(p, '/') + 1..]
  }

  /** A base name holds no '/'. */
  lemma BasenameNoSlash(p: string)
    ensures forall j :: 0 <= j < |Basename(p)| ==> Basename(p)[j] != '/'
  {
    LastIndexSpec(p, '/');
    var b := Basename(p);
    forall j | 0 <= j < |b| ensures b[j] != '/' {
      assert b[j] == p[LastIndex(p, '/') + 1 + j];
    }
  }

  /**
   * `os.path.splitext(p)`: the extension starts at the last '.' of the
   * last path component, provided some character other than '.' precedes
   * that dot within the component; otherwise the extension is empty.
   */
  function SplitExt(p: string): (r: (string, string))
    ensures r.0 + r.1 == p
  {
    var sep := LastIndex(p, '/');
    var dot := LastIndex(p, '.');
    if dot > sep && !AllChar(p[sep + 1..dot], '.') then (p[..dot], p[dot..]) else (p, "")
  }

  /** An extension is empty or a '.' followed by neither '.' nor '/'. */
  lemma ExtShape(p: string)
    ensures Ext(p) == "" || Ext(p)[0] == '.'
    ensures forall j :: 0 < j < |Ext(p)| ==> Ext(p)[j] != '.' && Ext(p)[j] != '/'
  {
    var sep := LastIndex(p, '/');
    var dot := LastIndex(p, '.');
    LastIndexSpec(p, '/');
    LastIndexSpec(p, '.');
    if dot > sep && !AllChar(p[sep + 1..dot], '.') {
      var e := p[dot..];
      assert e == Ext(p);
      forall j | 0 < j < |e| ensures e[j] != '.' && e[j] != '/' {
        assert e[j] == p[dot + j];
      }
    }
  }

  /** `LastIndex` is the only index that is -1 or holds `c` with no `c` after it. */
  lemma LastIndexUnique(s: string, c: char, i: int)
    requires -1 <= i < |s| && (i >= 0 ==> s[i] == c)
    requires forall j :: i < j < |s| ==> s[j] != c
    ensures LastIndex(s, c) == i
  {
    LastIndexSpec(s, c);
  }

  /** A non-empty extension follows a base name that is not made of dots alone. */
  lemma ExtAfterName(p: string)
    ensures Ext(p) != "" ==> !AllChar(Basename(SplitExt(p).0), '.')
  {
    var sep := LastIndex(p, '/');
    var dot := LastIndex(p, '.');
    LastIndexSpec(p, '/');
    LastIndexSpec(p, '.');
    if dot > sep && !AllChar(p[sep + 1..dot], '.') {
      var root := p[..dot];
      LastIndexUnique(root, '/', sep);
      assert Basename(root) == p[sep + 1..dot];
    }
  }

  /** An empty extension means every dot of the last component is a leading dot. */
  lemma ExtLeadingDots(p: string)
    ensures Ext(p) == "" ==>
      forall j :: 0 <= j < |Basename(p)| && Basename(p)[j] == '.' ==> AllChar(Basename(p)[..j], '.')
  {
    var sep := LastIndex(p, '/');
    var dot := LastIndex(p, '.');
    LastIndexSpec(p, '/');
    LastIndexSpec(p, '.');
    if !(dot > sep && !AllChar(p[sep + 1..dot], '.')) {
      var b := Basename(p);
      assert b == p[sep + 1..];
      forall j | 0 <= j < |b| && b[j] == '.'
        ensures AllChar(b[..j], '.')
      {
        assert p[sep + 1 + j] == '.';
        assert sep + 1 + j <= dot;
        if dot > sep {
          forall k | 0 <= k < j ensures b[..j][k] == '.' {
            assert b[..j][k] == p[sep + 1..dot][k];
          }
        }
      }
    }
  }

  /** The extension `os.path.splitext` reports. */
  function Ext(p: string): string { SplitExt(p).1 }

  /** `s.rstrip('/')`. */
  function RStripSlashes(s: string): (r: string)
    ensures r <= s && AllChar(s[|r|..], '/')
    ensures r == "" || r[|r| - 1] != '/'
  {
    if s == [] || s[|s| - 1] != '/' then s
    else
      var r := RStripSlashes(s[..|s| - 1]);
      assert s[|r|..] == s[..|s| - 1][|r|..] + "/";
      r
  }

  /**
   * `os.path.dirname(p)`: the text up to and including the last '/', with
   * trailing slashes removed unless it consists of slashes only.
   */
  function Dirname(p: string): (d: string)
    ensures d == "" || d[|d| - 1] != '/' || AllChar(d, '/')
  {
    var head := p[..LastIndex(p, '/') + 1];
    if head != "" && !AllChar(head, '/') then RStripSlashes(head) else head
  }

  /** `os.path.join(a, b)`. */
  function JoinPath(a: string, b: string): string
  {
    if b != "" && b[0] == '/' then b
    else if a == "" || a[|a| - 1] == '/' then a + b
    else a + "/" + b
  }

  lemma {:induction false} LastIndexAppend(a: string, b: string, c: char)
    requires c !in b
    ensures LastIndex(a + b, c) == LastIndex(a, c)
    decreases |b|
  {
    if b != [] {
      assert (a + b)[..|a + b| - 1] == a + b[..|b| - 1];
      assert b[|b| - 1] in b;
      assert (a + b)[|a + b| - 1] == b[|b| - 1];
      assert c !in b[..|b| - 1] by {
        assert forall k :: 0 <= k < |b| - 1 ==> b[..|b| - 1][k] == b[k];
      }
      LastIndexAppend(a, b[..|b| - 1], c);
    } else {
      assert a + b == a;
    }
  }

  /**
   * `os.path.join(os.path.dirname(f), name)` places `name` in the directory
   * of `f`, as long as `name` itself holds no '/'.
   */
  lemma JoinInSameDirectory(f: string, name: string)
    requires '/' !in name
    ensures Dirname(JoinPath(Dirname(f), name)) == Dirname(f)
    ensures Basename(JoinPath(Dirname(f), name)) == name
  {
    var d := Dirname(f);
    var t := JoinPath(d, name);
    if name != "" { assert name[0] in name; }
    if d == "" {
      assert t == "" + name;
      LastIndexAppend("", name, '/');
    } else if d[|d| - 1] == '/' {
      assert t == d + name;
      LastIndexAppend(d, name, '/');
      assert t[..LastIndex(t, '/') + 1] == d;
    } else {
      assert t == (d + "/") + name;
      LastIndexAppend(d + "/", name, '/');
      assert LastIndex(t, '/') == |d|;
      var head := t[..|d| + 1];
      assert head == d + "/";
      assert head[|d| - 1] == d[|d| - 1];
      var r := RStripSlashes(head);
      assert r == d;
    }
  }
}
